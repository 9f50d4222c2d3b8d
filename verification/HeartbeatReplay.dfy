/** Crash safety of the heartbeat publication.

    However many times the power fails, and after whichever durable writes, recovery ends in the published
    state exactly when the new record's identity is not in use and it sorts after every official row.  A
    record whose identity is in use is never published; one that only sorts elsewhere is published just the
    same, and then the history no longer verifies. */
module HeartbeatReplay {
  import opened Results
  import opened Sorting
  import opened HeartbeatState
  import opened HeartbeatOrder
  import opened Heartbeat

  /** The record's identity, its commit and its generation are not in use. */
  predicate Fresh(d: Disk, t: Txn)
  {
    && (forall row | row in d.rows && Official(row) :: RowIdentity(row) != Identity(t.record.payload))
    && !HasId(d.events, t.commit) && GenerationOf(d, t).complete.None?
  }

  /** `t` is the intent staged over `d`. */
  predicate Staged(d: Disk, t: Txn)
  {
    && t == Prepared(d, t.account, t.payload, t.commit, t.provenance)
    && CanStage(d, d.account, t.payload)
    && Fresh(d, t)
  }

  function PartialGeneration(d: Disk, t: Txn, n: nat): Generation
  {
    var g := GenerationOf(d, t);
    Generation(
      if n >= 2 then Some(t.account) else g.account,
      if n >= 3 then Some(t.provenance) else g.provenance,
      if n >= 4 then Some(t.record) else g.heartbeat,
      if n >= 5 then Some(t.event) else g.event,
      if n >= 6 then Some(t.payload) else g.payload,
      if n >= 9 then Some(Marker(t)) else g.complete)
  }

  /** The disk after the first `n` writes of the publication. */
  function Progress(d: Disk, t: Txn, n: nat): Disk
  {
    d.(txn := Some(t),
       account := if n >= 1 then Some(t.account) else d.account,
       gens := if n >= 2 then d.gens[Identity(t.payload) := PartialGeneration(d, t, n)] else d.gens,
       rows := if n >= 7 then FileOrder(d.rows + [Mark(t.record)]) else d.rows,
       events := if n >= 8 then d.events + [t.event] else d.events)
  }

  function Published(d: Disk, t: Txn): Disk
  {
    Progress(d, t, 9).(txn := None)
  }

  /** How the parts of a staged intent agree. */
  lemma StagedParts(d: Disk, t: Txn)
    requires Staged(d, t)
    ensures t.record.payload == t.payload && t.record.commit == t.commit && t.record.account == t.account
    ensures t.record.previous == Last(Officials(d.rows)) && t.record.event == t.event && t.base == d.account
    ensures t.event.id == t.commit && t.event.ts == t.payload.ts && t.event.account == t.account
    ensures t.root == t.record.root && HistoryOk(d, None) && ReferencesOk(d, None)
  {
    hide HistoryOk, ReferencesOk, Officials, Fresh;
  }

  // ----- The checks along the way -----

  lemma ChainGrows(events: seq<Event>, e: Event)
    requires ChainOk(events) && NextOk(events, e) && !HasId(events, e.id)
    ensures ChainOk(events + [e])
  {
    forall i | 0 <= i < |events| ensures NextOk((events + [e])[..i], (events + [e])[i])
                                      && !HasId((events + [e])[..i], (events + [e])[i].id) {
      assert (events + [e])[..i] == events[..i];
    }
    assert (events + [e])[..|events|] == events;
  }

  lemma EventsAlongTheWay(d: Disk, t: Txn, n: nat)
    requires Staged(d, t)
    ensures ChainOk(Progress(d, t, n).events)
  {
    ChainGrows(d.events, t.event);
  }

  /** Generations of other records are not disturbed. */
  lemma CompletionKept(d: Disk, t: Txn, n: nat, q: Record)
    requires Staged(d, t) && CompletionOk(d, q) && Identity(q.payload) != Identity(t.payload)
    ensures CompletionOk(Progress(d, t, n), q) && CompletionOk(Progress(d, t, n).(txn := None), q)
  {
    EventsAlongTheWay(d, t, n);
    hide ChainOk, CanStage, Fresh;
  }

  /** The new generation is complete exactly after the ninth write. */
  lemma CompleteAtNine(d: Disk, t: Txn, n: nat)
    requires Staged(d, t)
    ensures CompletionOk(Progress(d, t, n), t.record) <==> n >= 9
    ensures n >= 9 ==> CompletionOk(Progress(d, t, n).(txn := None), t.record)
  {
    EventsAlongTheWay(d, t, n);
    hide ChainOk, CanStage;
  }

  lemma RowsAlongTheWay(d: Disk, t: Txn, n: nat)
    ensures multiset(Progress(d, t, n).rows)
         == multiset(d.rows) + if n >= 7 then multiset{Mark(t.record)} else multiset{}
  {
  }

  /** No row or reconcile generation uses the new commit. */
  lemma CommitUnused(d: Disk, t: Txn, row: Row)
    requires Staged(d, t) && row in d.rows && row.Mark?
    ensures row.record.commit != t.commit
  {
    hide HistoryOk, Officials, EventOk;
    assert row in multiset(d.rows);
    assert Declared(d.events, None, row.record.commit, true);
  }

  lemma NotYetListed(d: Disk, t: Txn)
    requires Staged(d, t)
    ensures Mark(t.record) !in d.rows && multiset(d.rows)[Mark(t.record)] == 0
  {
    hide CanStage;
  }

  // ----- The history -----

  lemma OldRowsAreFresh(d: Disk, t: Txn, row: Row)
    requires Staged(d, t) && row in Officials(d.rows)
    ensures Official(row) && RowIdentity(row) != Identity(t.payload)
    ensures row.Mark? ==> row.record.commit != t.commit
  {
    hide CanStage, Officials;
    MemberOfOfficials(d.rows, row);
    if row.Mark? {
      CommitUnused(d, t, row);
    }
  }

  lemma WasChained(d: Disk, t: Txn, os: seq<Row>, i: nat)
    requires Staged(d, t) && os == Officials(d.rows) && i < |os| && forall k | 0 <= k < |os| :: Official(os[k])
    ensures Chained(d, os, i, None)
  {
    hide ReferencesOk, Fresh, Officials, Chained;
    AllOfficial(d.rows);
  }

  lemma KeptChained(d: Disk, disk: Disk, os: seq<Row>, i: nat, r: Record, allow: Option<Record>)
    requires (forall k | 0 <= k < |os| :: Official(os[k])) && i < |os| && Chained(d, os, i, None)
    requires os[i].Mark? ==> os[i].record.commit != r.commit
    requires os[i].Mark? && CompletionOk(d, os[i].record) ==> CompletionOk(disk, os[i].record)
    requires allow == None || allow == Some(r)
    ensures Chained(disk, os, i, allow) && Chained(disk, os + [Mark(r)], i, allow)
  {
    hide CompletionOk;
    assert (os + [Mark(r)])[..i] == os[..i];
  }

  /** The rows of a verified history still verify beside the new generation. */
  lemma OldRowsChained(d: Disk, t: Txn, n: nat, disk: Disk, os: seq<Row>, i: nat, allow: Option<Record>)
    requires Staged(d, t) && os == Officials(d.rows) && i < |os| && forall k | 0 <= k < |os| :: Official(os[k])
    requires disk == Progress(d, t, n) || disk == Progress(d, t, n).(txn := None)
    requires allow == None || allow == Some(t.record)
    ensures Chained(disk, os, i, allow) && Chained(disk, os + [Mark(t.record)], i, allow)
  {
    hide Staged, CompletionOk, Officials, Progress, Chained;
    WasChained(d, t, os, i);
    OldRowsAreFresh(d, t, os[i]);
    OldCompletionKept(d, t, n, disk, os[i]);
    KeptChained(d, disk, os, i, t.record, allow);
  }

  lemma OldCompletionKept(d: Disk, t: Txn, n: nat, disk: Disk, row: Row)
    requires Staged(d, t) && row in Officials(d.rows)
    requires disk == Progress(d, t, n) || disk == Progress(d, t, n).(txn := None)
    ensures row.Mark? ==> row.record.commit != t.record.commit
    ensures row.Mark? && CompletionOk(d, row.record) ==> CompletionOk(disk, row.record)
  {
    hide Staged, CompletionOk, Officials, Progress, HistoryOk, ReferencesOk;
    StagedParts(d, t);
    OldRowsAreFresh(d, t, row);
    if row.Mark? && CompletionOk(d, row.record) {
      CompletionKept(d, t, n, row.record);
    }
  }

  lemma HistoryIsOnePerIdentity(d: Disk, allow: Option<Record>)
    requires HistoryOk(d, allow)
    ensures (forall k | 0 <= k < |Officials(d.rows)| :: Official(Officials(d.rows)[k])) && OneEach(Officials(d.rows))
  {
    hide Officials, Chained;
    AllOfficial(d.rows);
  }

  lemma RowChained(disk: Disk, os: seq<Row>, r: Record, allow: Option<Record>)
    requires (forall k | 0 <= k < |os| :: Official(os[k])) && r.previous == Last(os)
    requires allow == Some(r) || (allow == None && CompletionOk(disk, r))
    ensures Chained(disk, os + [Mark(r)], |os|, allow)
  {
    hide CompletionOk;
    assert (os + [Mark(r)])[..|os|] == os;
  }

  lemma NewRowChained(d: Disk, t: Txn, n: nat, disk: Disk, allow: Option<Record>)
    requires Staged(d, t) && n >= 7
    requires (disk == Progress(d, t, n) && allow == Some(t.record))
          || (disk == Progress(d, t, n).(txn := None) && n >= 9 && allow == None)
    ensures var grown := Officials(d.rows) + [Mark(t.record)];
      (forall k | 0 <= k < |grown| :: Official(grown[k])) && Chained(disk, grown, |grown| - 1, allow)
  {
    hide Staged, CompletionOk, Officials, Progress, HistoryOk, ReferencesOk, Chained;
    StagedParts(d, t);
    AllOfficial(d.rows);
    CompleteAtNine(d, t, n);
    RowChained(disk, Officials(d.rows), t.record, allow);
  }

  lemma GrownIsOneEach(d: Disk, t: Txn)
    requires Staged(d, t)
    ensures var grown := Officials(d.rows) + [Mark(t.record)];
      (forall k | 0 <= k < |grown| :: Official(grown[k])) && OneEach(grown)
  {
    hide Staged, Officials, Identity, HistoryOk, ReferencesOk;
    var os := Officials(d.rows);
    StagedParts(d, t);
    WasOneEach(d, t);
    forall i | 0 <= i < |os| ensures RowIdentity(os[i]) != Identity(t.payload) {
      OldRowsAreFresh(d, t, os[i]);
    }
  }

  lemma WasOneEach(d: Disk, t: Txn)
    requires Staged(d, t)
    ensures (forall k | 0 <= k < |Officials(d.rows)| :: Official(Officials(d.rows)[k])) && OneEach(Officials(d.rows))
  {
    hide ReferencesOk, Fresh, Officials, Chained;
    HistoryIsOnePerIdentity(d, None);
  }

  lemma HistoryFrom(d: Disk, allow: Option<Record>, os: seq<Row>)
    requires os == Officials(d.rows) && (forall k | 0 <= k < |os| :: Official(os[k])) && OneEach(os)
    requires forall i | 0 <= i < |os| :: Chained(d, os, i, allow)
    ensures HistoryOk(d, allow)
  {
    hide Chained, Officials;
  }

  /** Before the row is appended, recovery accepts the history whatever the record. */
  lemma HistoryBeforeTheRow(d: Disk, t: Txn, n: nat)
    requires Staged(d, t) && n < 7
    ensures HistoryOk(Progress(d, t, n), Some(t.record))
  {
    assert Progress(d, t, n).rows == d.rows;
    hide Staged, Officials, Chained, Progress, OneEach, HistoryOk, ReferencesOk;
    WasOneEach(d, t);
    forall i | 0 <= i < |Officials(d.rows)| ensures Chained(Progress(d, t, n), Officials(d.rows), i, Some(t.record)) {
      OldRowsChained(d, t, n, Progress(d, t, n), Officials(d.rows), i, Some(t.record));
    }
    HistoryFrom(Progress(d, t, n), Some(t.record), Officials(d.rows));
  }

  /** At which point of the publication which allowance applies. */
  predicate Allowed(d: Disk, t: Txn, n: nat, disk: Disk, pending: bool)
  {
    if pending then disk == Progress(d, t, n) else n >= 9 && disk == Progress(d, t, n).(txn := None)
  }

  function PendingRow(t: Txn, pending: bool): Option<Record>
  {
    if pending then Some(t.record) else None
  }

  function PendingEvent(t: Txn, pending: bool): Option<Event>
  {
    if pending then Some(t.event) else None
  }

  lemma GrownChained(d: Disk, t: Txn, n: nat, disk: Disk, pending: bool, i: nat)
    requires Staged(d, t) && n >= 7 && Allowed(d, t, n, disk, pending) && i <= |Officials(d.rows)|
    ensures var grown := Officials(d.rows) + [Mark(t.record)];
      (forall k | 0 <= k < |grown| :: Official(grown[k]))
      && Chained(disk, grown, i, PendingRow(t, pending))
  {
    var allow := PendingRow(t, pending);
    hide Staged, Officials, Chained, Progress;
    AllOfficial(d.rows);
    if i < |Officials(d.rows)| {
      OldRowsChained(d, t, n, disk, Officials(d.rows), i, allow);
    } else {
      NewRowChained(d, t, n, disk, allow);
    }
  }

  lemma RowsAfterTheRow(d: Disk, t: Txn, n: nat, disk: Disk, pending: bool)
    requires n >= 7 && Allowed(d, t, n, disk, pending)
    ensures disk.rows == FileOrder(d.rows + [Mark(t.record)])
  {
    hide FileOrder;
  }

  /** Afterwards it accepts it if the record sorts last. */
  lemma HistoryAfterTheRow(d: Disk, t: Txn, n: nat, disk: Disk, pending: bool)
    requires Staged(d, t) && n >= 7 && Extends(d.rows, t.payload) && Allowed(d, t, n, disk, pending)
    ensures HistoryOk(disk, PendingRow(t, pending))
    ensures Officials(disk.rows) == Officials(d.rows) + [Mark(t.record)]
  {
    hide Staged, Officials, Chained, Progress, OneEach, Extends, Allowed, FileOrder, HistoryOk, ReferencesOk;
    StagedParts(d, t);
    WasOneEach(d, t);
    OfficialsGrow(d.rows, t.record);
    GrownIsOneEach(d, t);
    RowsAfterTheRow(d, t, n, disk, pending);
    var grown := Officials(d.rows) + [Mark(t.record)];
    var allow := PendingRow(t, pending);
    forall i | 0 <= i < |grown| ensures Chained(disk, grown, i, allow) {
      GrownChained(d, t, n, disk, pending, i);
    }
    HistoryFrom(disk, allow, grown);
  }

  // ----- The references -----

  lemma DeclaredBeside(rows: multiset<Row>, row: Row, id: nat)
    requires DeclaredOnce(rows, id) && !Declares(row, id)
    ensures DeclaredOnce(rows + multiset{row}, id)
  {
    var own :| own in rows && Declares(own, id) && rows[own] == 1;
    assert (rows + multiset{row})[own] == 1;
  }

  lemma StillDeclared(d: Disk, t: Txn, n: nat, pending: Option<Event>, id: nat, heartbeat: bool)
    requires Declared(d.events, None, id, heartbeat)
    ensures Declared(Progress(d, t, n).events, pending, id, heartbeat)
  {
    var e :| e in d.events && e.id == id && e.heartbeat == heartbeat;
    assert e in Progress(d, t, n).events;
  }

  lemma OldEventOk(d: Disk, t: Txn, n: nat, disk: Disk, pending: Option<Event>, i: nat)
    requires Staged(d, t) && i < |d.events|
    requires disk == Progress(d, t, n) || disk == Progress(d, t, n).(txn := None)
    requires pending == None || pending == Some(t.event)
    ensures EventOk(disk, pending, i)
  {
    var e := d.events[i];
    assert EventOk(d, None, i);
    assert e.id != t.commit;
    assert disk.events[i] == e;
    RowsAlongTheWay(d, t, n);
    hide CanStage, CompletionOk, Officials, FileOrder;
    if e.heartbeat {
      if n >= 7 {
        DeclaredBeside(multiset(d.rows), Mark(t.record), e.id);
      }
      forall row | row in multiset(disk.rows) && Declares(row, e.id)
        ensures Bound(row.record, e) && CompletionOk(disk, row.record) {
        assert row in multiset(d.rows);
        CompletionKept(d, t, n, row.record);
      }
    }
  }

  lemma NewRowDeclaredOnce(d: Disk, t: Txn, n: nat)
    requires Staged(d, t) && n >= 7
    ensures DeclaredOnce(multiset(Progress(d, t, n).rows), t.commit)
    ensures forall row | row in multiset(Progress(d, t, n).rows) && Declares(row, t.commit) :: row == Mark(t.record)
  {
    RowsAlongTheWay(d, t, n);
    NotYetListed(d, t);
    var rows := multiset(Progress(d, t, n).rows);
    hide CanStage, Fresh, FileOrder, Progress;
    assert rows[Mark(t.record)] == 1;
    forall row | row in rows && Declares(row, t.commit) ensures row == Mark(t.record) {
      if row != Mark(t.record) {
        assert row in multiset(d.rows);
        CommitUnused(d, t, row);
      }
    }
    assert Mark(t.record) in rows && Declares(Mark(t.record), t.commit);
  }

  lemma NewEventOk(d: Disk, t: Txn, n: nat, disk: Disk, pending: bool)
    requires Staged(d, t) && n >= 8 && Allowed(d, t, n, disk, pending)
    ensures EventOk(disk, PendingEvent(t, pending), |d.events|)
  {
    NewRowDeclaredOnce(d, t, n);
    CompleteAtNine(d, t, n);
    assert disk.events[|d.events|] == t.event;
    hide CanStage, Fresh, CompletionOk, Officials, FileOrder;
  }

  lemma RowDeclared(d: Disk, t: Txn, n: nat, pending: Option<Event>, row: Row)
    requires Staged(d, t) && row in multiset(Progress(d, t, n).rows) && row.Mark?
    requires pending == Some(t.event) || (pending == None && n >= 8)
    ensures var id := row.record.commit;
      Declared(Progress(d, t, n).events, pending, id, true) && DeclaredOnce(multiset(Progress(d, t, n).rows), id)
      && id !in d.reconciles
  {
    RowsAlongTheWay(d, t, n);
    var id := row.record.commit;
    if row == Mark(t.record) && n >= 7 {
      NewRowDeclaredOnce(d, t, n);
      if n >= 8 {
        assert t.event in Progress(d, t, n).events;
      }
      assert id in d.reconciles ==> Declared(d.events, None, id, false);
    } else {
      assert row in multiset(d.rows);
      CommitUnused(d, t, row);
      assert Declared(d.events, None, id, true) && DeclaredOnce(multiset(d.rows), id) && id !in d.reconciles;
      StillDeclared(d, t, n, pending, id, true);
      if n >= 7 {
        DeclaredBeside(multiset(d.rows), Mark(t.record), id);
      }
    }
  }

  lemma PendingFits(d: Disk, t: Txn, n: nat)
    requires Staged(d, t)
    ensures var events := Progress(d, t, n).events;
      if HasId(events, t.commit) then Last(events) == Some(t.event) else NextOk(events, t.event)
  {
    hide HistoryOk, Officials, FileOrder, ReferencesOk;
  }

  predicate ReconcilesDeclared(d: Disk, pending: Option<Event>)
  {
    forall id | id in d.reconciles :: Declared(d.events, pending, id, false)
  }

  predicate RowsDeclared(d: Disk, pending: Option<Event>)
  {
    forall row | row in multiset(d.rows) && row.Mark? ::
      var id := row.record.commit;
      Declared(d.events, pending, id, true) && DeclaredOnce(multiset(d.rows), id) && id !in d.reconciles
  }

  lemma ReconcilesStillDeclared(d: Disk, t: Txn, n: nat, pending: Option<Event>)
    requires Staged(d, t)
    ensures ReconcilesDeclared(Progress(d, t, n), pending)
  {
    hide HistoryOk, Officials, FileOrder;
    forall id | id in d.reconciles ensures Declared(Progress(d, t, n).events, pending, id, false) {
      assert Declared(d.events, None, id, false);
      StillDeclared(d, t, n, pending, id, false);
    }
  }

  lemma RowsStillDeclared(d: Disk, t: Txn, n: nat, pending: Option<Event>)
    requires Staged(d, t) && (pending == Some(t.event) || (pending == None && n >= 8))
    ensures RowsDeclared(Progress(d, t, n), pending)
  {
    hide Staged, Declared, DeclaredOnce, Officials, FileOrder;
    assert Progress(d, t, n).reconciles == d.reconciles;
    forall row | row in multiset(Progress(d, t, n).rows) && row.Mark?
      ensures var id := row.record.commit;
        Declared(Progress(d, t, n).events, pending, id, true) && DeclaredOnce(multiset(Progress(d, t, n).rows), id)
        && id !in d.reconciles {
      RowDeclared(d, t, n, pending, row);
    }
  }

  lemma EventsStillOk(d: Disk, t: Txn, n: nat, disk: Disk, pending: bool)
    requires Staged(d, t) && Allowed(d, t, n, disk, pending)
    ensures forall i | 0 <= i < |disk.events| :: EventOk(disk, PendingEvent(t, pending), i)
  {
    hide Staged, EventOk, Officials, FileOrder;
    forall i | 0 <= i < |disk.events| ensures EventOk(disk, PendingEvent(t, pending), i) {
      if i < |d.events| {
        OldEventOk(d, t, n, disk, PendingEvent(t, pending), i);
      } else {
        NewEventOk(d, t, n, disk, pending);
      }
    }
  }

  /** The account events verify at every point, the new one being allowed to be pending, and without
      allowance once the publication is complete. */
  lemma ReferencesAlongTheWay(d: Disk, t: Txn, n: nat, disk: Disk, pending: bool)
    requires Staged(d, t) && Allowed(d, t, n, disk, pending)
    ensures ReferencesOk(disk, PendingEvent(t, pending))
  {
    hide Staged, ReferencesOk, Officials, FileOrder, ChainOk, EventOk, NextOk, HasId, ReconcilesDeclared, RowsDeclared,
         HistoryOk;
    StagedParts(d, t);
    EventsAlongTheWay(d, t, n);
    PendingFits(d, t, n);
    ReconcilesStillDeclared(d, t, n, PendingEvent(t, pending));
    RowsStillDeclared(d, t, n, PendingEvent(t, pending));
    EventsStillOk(d, t, n, disk, pending);
    SameRecords(d, t, n, disk, pending, PendingEvent(t, pending));
    ReferencesFrom(disk, PendingEvent(t, pending));
  }

  lemma SameRecords(d: Disk, t: Txn, n: nat, disk: Disk, pending: bool, event: Option<Event>)
    requires Allowed(d, t, n, disk, pending)
    ensures disk.events == Progress(d, t, n).events
    ensures ReconcilesDeclared(Progress(d, t, n), event) ==> ReconcilesDeclared(disk, event)
    ensures RowsDeclared(Progress(d, t, n), event) ==> RowsDeclared(disk, event)
  {
    hide FileOrder, Declared, DeclaredOnce;
  }

  lemma ReferencesFrom(d: Disk, pending: Option<Event>)
    requires ChainOk(d.events) && ReconcilesDeclared(d, pending) && RowsDeclared(d, pending)
    requires pending.Some? ==>
      if HasId(d.events, pending.value.id) then Last(d.events) == pending else NextOk(d.events, pending.value)
    requires forall i | 0 <= i < |d.events| :: EventOk(d, pending, i)
    ensures ReferencesOk(d, pending)
  {
    hide ChainOk, Declared, DeclaredOnce, EventOk, NextOk, HasId;
  }

  // ----- Replaying -----

  lemma {:induction false} NothingDropped(rows: seq<Row>, r: Record)
    requires forall row | row in rows :: !SameSlot(row, r)
    ensures Others(rows, r) == rows
  {
    if rows == [] {
    } else {
      NothingDropped(rows[..|rows| - 1], r);
      assert rows == rows[..|rows| - 1] + [rows[|rows| - 1]];
    }
  }

  lemma NothingInTheWay(d: Disk, t: Txn)
    requires Staged(d, t)
    ensures Mark(t.record) !in d.rows && t.record.previous == Last(Officials(d.rows))
    ensures (forall row | row in d.rows :: !SameSlot(row, t.record)) && Others(d.rows, t.record) == d.rows
  {
    hide HistoryOk, ReferencesOk, Officials, Others;
    NotYetListed(d, t);
    StagedParts(d, t);
    NothingDropped(d.rows, t.record);
  }

  lemma RowAppended(d: Disk, r: Record)
    requires HistoryOk(d, Some(r)) && Mark(r) !in d.rows && r.previous == Last(Officials(d.rows))
    requires (forall row | row in d.rows :: !SameSlot(row, r)) && Others(d.rows, r) == d.rows
    ensures Appended(d, r) == Ok(FileOrder(d.rows + [Mark(r)]))
  {
    hide HistoryOk, Officials, Others, FileOrder, SameSlot;
  }

  lemma AppendsOnce(d: Disk, t: Txn, n: nat)
    requires Staged(d, t) && n >= 6 && (n >= 7 ==> Extends(d.rows, t.payload))
    ensures Appended(Progress(d, t, n), t.record) == Ok(Progress(d, t, if n < 7 then 7 else n).rows)
  {
    hide Staged, HistoryOk, Officials, FileOrder, Extends, Others, SameSlot;
    var p := Progress(d, t, n);
    if n < 7 {
      HistoryBeforeTheRow(d, t, n);
      NothingInTheWay(d, t);
      hide Appended;
      RowAppended(p, t.record);
    } else {
      RowsAlongTheWay(d, t, n);
      HistoryAfterTheRow(d, t, n, p, true);
      assert Mark(t.record) in multiset(p.rows);
    }
  }

  lemma EventOnce(d: Disk, t: Txn, n: nat)
    requires Staged(d, t)
    ensures EventAppended(Progress(d, t, n), t.event) == Ok(Progress(d, t, if n < 8 then 8 else n).events)
  {
    ReferencesAlongTheWay(d, t, n, Progress(d, t, n), true);
    hide ReferencesOk, HistoryOk, FileOrder;
  }

  lemma GenerationThen(d: Disk, t: Txn, n: nat)
    requires t.record.payload == t.payload
    ensures GenerationOf(Progress(d, t, n), t) == PartialGeneration(d, t, n)
  {
    hide FileOrder;
  }

  lemma GenerationWritten(d: Disk, t: Txn, n: nat, m: nat)
    requires t.record.payload == t.payload && 2 <= m <= 9 && m !in {7, 8} && n <= 9
    requires m == n + 1 || m <= n
    ensures WithGeneration(Progress(d, t, n), t, PartialGeneration(d, t, if m == n + 1 then m else n))
         == Progress(d, t, if m == n + 1 then m else n)
  {
    hide FileOrder, PartialGeneration;
  }

  /** Over a disk that already shows the first `n` writes, any of them changes nothing and the next one
      adds itself; only repeating the ledger row depends on where the record sorts. */
  lemma WriteAdvances(d: Disk, t: Txn, n: nat, i: int)
    requires Staged(d, t) && n <= 9 && 1 <= i <= n + 1
    requires n >= 7 && i == 7 ==> Extends(d.rows, t.payload)
    ensures Write(Progress(d, t, n), t, i) ==
            Ok(if i == 10 then Published(d, t) else Progress(d, t, if i == n + 1 then i else n))
  {
    assert t.record.payload == t.payload && t.record.account == t.account && t.root == t.record.root;
    GenerationThen(d, t, n);
    if i == 7 {
      AppendsOnce(d, t, n);
      hide Staged, Appended, FileOrder;
    } else if i == 8 {
      EventOnce(d, t, n);
      hide Staged, EventAppended, FileOrder;
    } else if i == 10 {
      CompleteAtNine(d, t, 9);
      hide Staged, CompletionOk, FileOrder;
    } else if i == 1 {
      hide Staged, FileOrder;
    } else {
      GenerationWritten(d, t, n, i);
      hide Staged, FileOrder, Progress, WithGeneration;
    }
  }

  lemma {:induction false} ReplayAdvances(d: Disk, t: Txn, n: nat, i: int, left: nat)
    requires Staged(d, t) && n <= 9 && 1 <= i <= n + 1
    requires n >= 7 && i <= 7 ==> Extends(d.rows, t.payload)
    ensures var (after, o) := Replay(Progress(d, t, n), t, i, left);
      if left >= LAST_WRITE + 1 - i then (after, o) == (Published(d, t), Recovered(false))
      else o == PowerLoss && exists m: nat :: n <= m <= 9 && after == Progress(d, t, m)
    decreases LAST_WRITE + 1 - i
  {
    hide Staged, Write, Progress, Published;
    WriteAdvances(d, t, n, i);
    if left > 0 && i <= 9 {
      ReplayAdvances(d, t, if i == n + 1 then i else n, i + 1, left - 1);
    }
  }

  lemma IntentIsIntact(d: Disk, t: Txn)
    requires Staged(d, t)
    ensures Intact(t) && !d.reconcilePending && d.txn.None?
  {
    hide HistoryOk, ReferencesOk, Officials;
  }

  lemma HistoryAlongTheWay(d: Disk, t: Txn, n: nat)
    requires Staged(d, t) && (n >= 7 ==> Extends(d.rows, t.payload))
    ensures HistoryOk(Progress(d, t, n), Some(t.record))
  {
    hide Staged, HistoryOk;
    if n < 7 {
      HistoryBeforeTheRow(d, t, n);
    } else {
      HistoryAfterTheRow(d, t, n, Progress(d, t, n), true);
    }
  }

  lemma ListedAtNine(d: Disk, t: Txn)
    ensures Mark(t.record) in Progress(d, t, 9).rows
  {
    RowsAlongTheWay(d, t, 9);
    hide FileOrder;
    assert Mark(t.record) in multiset(Progress(d, t, 9).rows);
  }

  lemma ProgressFacts(d: Disk, t: Txn, n: nat)
    requires Staged(d, t) && n <= 9
    ensures var p := Progress(d, t, n);
      && p.txn == Some(t) && !p.reconcilePending
      && (p.account == t.base || p.account == Some(t.account)) && (n >= 1 ==> p.account == Some(t.record.account))
      && (GenerationOf(p, t).complete.Some? ==> GenerationOf(p, t).complete.value.commit == t.record.commit)
      && Published(d, t) == Progress(d, t, 9).(txn := None)
  {
    IntentIsIntact(d, t);
    StagedParts(d, t);
    GenerationThen(d, t, n);
    assert GenerationOf(d, t).complete.None?;
    hide Staged, FileOrder, HistoryOk, ReferencesOk, Intact, GenerationOf;
  }

  /** One recovery, cut short anywhere: it refuses nothing, loses no write already made, and with enough
      power ends in the published state.  Until the ledger row is written this holds of every record. */
  lemma AttemptAdvances(d: Disk, t: Txn, n: nat, writes: nat)
    requires Staged(d, t) && n <= 9 && (n >= 7 ==> Extends(d.rows, t.payload))
    ensures var (after, o) := Attempt(Progress(d, t, n), writes);
      && (o.Recovered? || o.PowerLoss?)
      && (o.Recovered? ==> after == Published(d, t))
      && (o.PowerLoss? ==> exists m: nat :: n <= m <= 9 && after == Progress(d, t, m))
      && (writes >= LAST_WRITE ==> o.Recovered?)
  {
    hide Staged, HistoryOk, ReferencesOk, CompletionOk, Replay, Extends, Intact, FileOrder, Progress, Published,
        GenerationOf;
    IntentIsIntact(d, t);
    ProgressFacts(d, t, n);
    HistoryAlongTheWay(d, t, n);
    ReferencesAlongTheWay(d, t, n, Progress(d, t, n), true);
    CompleteAtNine(d, t, n);
    ListedAtNine(d, t);
    ReplayAdvances(d, t, n, 1, writes);
  }

  /** The disk after a series of recoveries, each cut short after so many writes. */
  function Attempts(d: Disk, cuts: seq<nat>): Disk
  {
    if cuts == [] then d
    else Attempt(Attempts(d, cuts[..|cuts| - 1]), cuts[|cuts| - 1]).0
  }

  lemma {:induction false} AttemptsAdvance(d: Disk, t: Txn, cuts: seq<nat>)
    requires Staged(d, t) && Extends(d.rows, t.payload)
    ensures var after := Attempts(Progress(d, t, 0), cuts);
      after == Published(d, t) || exists m: nat :: m <= 9 && after == Progress(d, t, m)
  {
    hide Staged, Extends, Progress, Attempt;
    if cuts == [] {
      assert Attempts(Progress(d, t, 0), cuts) == Progress(d, t, 0);
    } else {
      var before := Attempts(Progress(d, t, 0), cuts[..|cuts| - 1]);
      AttemptsAdvance(d, t, cuts[..|cuts| - 1]);
      if before == Published(d, t) {
        NothingPendingAfterwards(d, t, cuts[|cuts| - 1]);
      } else {
        var m: nat :| m <= 9 && before == Progress(d, t, m);
        AttemptAdvances(d, t, m, cuts[|cuts| - 1]);
      }
    }
  }

  lemma NothingPendingAfterwards(d: Disk, t: Txn, writes: nat)
    ensures Attempt(Published(d, t), writes) == (Published(d, t), NothingPending)
  {
    hide FileOrder;
  }

  /** Whatever number of power losses, each after any durable write, one uninterrupted recovery then ends
      in exactly the state of a publication that was never interrupted. */
  lemma CrashesDoNotMatter(d: Disk, t: Txn, cuts: seq<nat>, writes: nat)
    requires Staged(d, t) && Extends(d.rows, t.payload) && writes >= LAST_WRITE
    ensures var staged := d.(txn := Some(t));
      Attempt(Attempts(staged, cuts), writes).0 == Attempt(staged, writes).0 == Published(d, t)
  {
    ProgressStartsStaged(d, t);
    hide Staged, Extends, Progress, Attempt, Published;
    AttemptsAdvance(d, t, cuts);
    AttemptAdvances(d, t, 0, writes);
    var before := Attempts(Progress(d, t, 0), cuts);
    if before == Published(d, t) {
      NothingPendingAfterwards(d, t, writes);
    } else {
      var m: nat :| m <= 9 && before == Progress(d, t, m);
      AttemptAdvances(d, t, m, writes);
    }
  }

  lemma ProgressStartsStaged(d: Disk, t: Txn)
    ensures Progress(d, t, 0) == d.(txn := Some(t))
  {
  }

  // ----- The published state -----

  /** The new account, the record once, the event at the head of its chain, and both chains verifying with
      no allowance; so the next heartbeat can be staged over it. */
  lemma {:induction false} PublishedVerifies(d: Disk, t: Txn)
    requires Staged(d, t) && Extends(d.rows, t.payload)
    ensures var p := Published(d, t);
      && p.account == Some(t.account) && p.txn.None?
      && multiset(p.rows) == multiset(d.rows) + multiset{Mark(t.record)} && multiset(p.rows)[Mark(t.record)] == 1
      && Officials(p.rows) == Officials(d.rows) + [Mark(t.record)]
      && p.events == d.events + [t.event] && CompletionOk(p, t.record)
      && HistoryOk(p, None) && ReferencesOk(p, None)
    ensures forall next: Payload | next.ts >= t.payload.ts :: CanStage(Published(d, t), Some(t.account), next)
  {
    IntentIsIntact(d, t);
    RowsAlongTheWay(d, t, 9);
    NotYetListed(d, t);
    CompleteAtNine(d, t, 9);
    HistoryAfterTheRow(d, t, 9, Published(d, t), false);
    ReferencesAlongTheWay(d, t, 9, Published(d, t), false);
    assert t.event.ts == t.payload.ts && t.event.account == t.account;
    hide Staged, HistoryOk, ReferencesOk, CompletionOk, Officials, FileOrder, Extends;
  }

  /** A record that does not sort last breaks the chain: published or not, the history no longer verifies
      once its row is in the ledger. */
  lemma MustSortLast(d: Disk, t: Txn, n: nat, disk: Disk, pending: bool)
    requires Staged(d, t) && n >= 7
    requires Allowed(d, t, n, disk, pending)
    ensures HistoryOk(disk, PendingRow(t, pending)) <==> Extends(d.rows, t.payload)
  {
    if Extends(d.rows, t.payload) {
      HistoryAfterTheRow(d, t, n, disk, pending);
    } else if HistoryOk(disk, PendingRow(t, pending)) {
      MisplacedRow(d, t, n, disk, pending);
    }
  }

  lemma LastIsGreatest(rows: seq<Row>, r: Record, os: seq<Row>)
    requires os != [] && os == Officials(rows) && Ascending(RowBefore, os) && os[|os| - 1] == Mark(r)
    ensures forall row | row in rows && Official(row) && row != Mark(r) :: RowBefore(row, Mark(r))
  {
    hide Officials, RowBefore;
    forall row | row in rows && Official(row) && row != Mark(r) ensures RowBefore(row, Mark(r)) {
      MemberOfOfficials(rows, row);
      var k :| 0 <= k < |os| && os[k] == row;
      assert RowBefore(os[k], os[|os| - 1]);
    }
  }

  /** No other row of the grown chain sorts after the last of the old one. */
  lemma OthersUpToTheOldLast(rows: seq<Row>, grown: seq<Row>, r: Record)
    requires multiset(grown) == multiset(rows) + multiset{Mark(r)}
    ensures var os, olds := Officials(grown), Officials(rows);
      forall k | 0 <= k < |os| && os[k] != Mark(r) :: olds != [] && !RowBefore(olds[|olds| - 1], os[k])
  {
    var os, olds := Officials(grown), Officials(rows);
    OfficialsAreSorted(rows);
    hide Officials, RowBefore;
    forall k | 0 <= k < |os| && os[k] != Mark(r) ensures olds != [] && !RowBefore(olds[|olds| - 1], os[k]) {
      MemberOfOfficials(grown, os[k]);
      assert os[k] in multiset(grown);
      assert os[k] in multiset(rows);
      MemberOfOfficials(rows, os[k]);
      var i :| 0 <= i < |olds| && olds[i] == os[k];
      RowBeforeIsAsymmetric(os[k], os[k]);
    }
  }

  lemma AscendsPast(os: seq<Row>, i: nat, k: nat)
    requires Ascending(RowBefore, os) && i < k < |os|
    ensures os[k] != os[i] && (i >= 1 ==> RowBefore(os[i - 1], os[k]))
  {
    RowBeforeIsAsymmetric(os[i], os[k]);
    hide RowBefore;
    assert RowBefore(os[i], os[k]);
  }

  /** If the record's predecessor in the grown chain is the last of the old one, the record is last. */
  lemma PredecessorIsLast(rows: seq<Row>, grown: seq<Row>, r: Record, i: nat)
    requires multiset(grown) == multiset(rows) + multiset{Mark(r)}
    requires var os := Officials(grown);
      i < |os| && os[i] == Mark(r) && Last(os[..i]) == Last(Officials(rows)) && Ascending(RowBefore, os)
    ensures i == |Officials(grown)| - 1
  {
    hide Officials, RowBefore;
    if i != |Officials(grown)| - 1 {
      AscendsPast(Officials(grown), i, |Officials(grown)| - 1);
      OthersUpToTheOldLast(rows, grown, r);
      assert false;
    }
  }

  lemma WhereTheRowIs(d: Disk, t: Txn, n: nat, disk: Disk, pending: bool) returns (i: nat)
    requires Staged(d, t) && n >= 7
    requires Allowed(d, t, n, disk, pending)
    requires HistoryOk(disk, PendingRow(t, pending))
    ensures var os := Officials(disk.rows);
      && i < |os| && os[i] == Mark(t.record)
      && (if !pending then Last(os[..i]) == Last(Officials(d.rows)) else i == |os| - 1)
  {
    hide Staged, CompletionOk, OneEach, RowIdentity, Officials, FileOrder;
    StagedParts(d, t);
    hide ReferencesOk;
    var os := Officials(disk.rows);
    assert disk.rows == FileOrder(d.rows + [Mark(t.record)]);
    hide Progress;
    assert Mark(t.record) in multiset(d.rows + [Mark(t.record)]);
    MemberOfOfficials(disk.rows, Mark(t.record));
    i :| 0 <= i < |os| && os[i] == Mark(t.record);
    assert Chained(disk, os, i, PendingRow(t, pending));
  }

  lemma MisplacedRow(d: Disk, t: Txn, n: nat, disk: Disk, pending: bool)
    requires Staged(d, t) && n >= 7
    requires Allowed(d, t, n, disk, pending)
    requires HistoryOk(disk, PendingRow(t, pending))
    ensures Extends(d.rows, t.payload)
  {
    hide Staged, HistoryOk, Officials, FileOrder, Earlier, RowBefore, CompletionOk, Fresh, CanStage;
    StagedParts(d, t);
    var i := WhereTheRowIs(d, t, n, disk, pending);
    RowsAlongTheWay(d, t, n);
    NotYetListed(d, t);
    assert multiset(disk.rows) == multiset(d.rows) + multiset{Mark(t.record)};
    hide Progress;
    HistoryIsOnePerIdentity(disk, PendingRow(t, pending));
    OfficialsAreSorted(disk.rows);
    SortedIsAscending(Officials(disk.rows));
    hide OneEach, Ascending, Sorted;
    if !pending {
      PredecessorIsLast(d.rows, disk.rows, t.record, i);
    }
    LastIsGreatest(disk.rows, t.record, Officials(disk.rows));
    forall row | row in d.rows && Official(row) ensures Earlier(ChainKey(PayloadOf(row)), ChainKey(t.payload)) {
      assert row in multiset(disk.rows);
      assert row in disk.rows && row != Mark(t.record);
      AsKeys(row, t.record);
    }
  }

  lemma AsKeys(row: Row, r: Record)
    requires Official(row) && RowBefore(row, Mark(r))
    ensures Earlier(ChainKey(PayloadOf(row)), ChainKey(r.payload))
  {
  }

  // ----- What staging accepts -----

  /** The commit id occurs nowhere; the code draws it at random. */
  predicate NewCommit(d: Disk, commit: nat)
  {
    && !HasId(d.events, commit)
    && (forall id | id in d.gens :: d.gens[id].complete.Some? ==> d.gens[id].complete.value.commit != commit)
  }

  /** `t` is an intent the staging code writes over `d`.  Whether its identity is in use is not asked. */
  predicate Accepted(d: Disk, t: Txn)
  {
    && t == Prepared(d, t.account, t.payload, t.commit, t.provenance)
    && CanStage(d, d.account, t.payload)
    && NewCommit(d, t.commit)
  }

  lemma AcceptedFreshIsStaged(d: Disk, t: Txn)
    requires Accepted(d, t) && Fresh(d, t)
    ensures Staged(d, t)
  {
    hide CanStage, Fresh, NewCommit, Prepared;
  }

  /** A generation that another commit has completed is refused before anything is written. */
  lemma CompletedIsRefused(d: Disk, t: Txn, writes: nat)
    requires var g := GenerationOf(d, t); g.complete.Some? && g.complete.value.commit != t.record.commit
    ensures var staged := d.(txn := Some(t)); Attempt(staged, writes).0 == staged && Attempt(staged, writes).1.Refused?
  {
    hide Intact, HistoryOk, ReferencesOk, CompletionOk, Replay;
    assert GenerationOf(d.(txn := Some(t)), t) == GenerationOf(d, t);
  }

  /** Replaying over a row with the record's identity never ends with that row still in the ledger. */
  lemma {:induction false} ReplayLosesTheRow(disk: Disk, t: Txn, i: int, left: nat, row: Row)
    requires 1 <= i <= LAST_WRITE + 1 && row != Mark(t.record)
    requires if i <= 7 then disk.txn.Some? && Mark(t.record) !in disk.rows && SameSlot(row, t.record)
             else row !in disk.rows
    ensures var after := Replay(disk, t, i, left).0; after.txn.Some? || row !in after.rows
    decreases LAST_WRITE + 1 - i
  {
    hide Appended, EventAppended, CompletionOk, SameSlot;
    if i == LAST_WRITE + 1 {
    } else if Write(disk, t, i).Ok? && left > 0 {
      if i == 7 {
        AppendKeepsOtherIdentities(disk, t.record, row);
      }
      ReplayLosesTheRow(Write(disk, t, i).value, t, i + 1, left - 1, row);
    }
  }

  lemma KeepsEveryRow(d: Disk, t: Txn, row: Row)
    requires row in d.rows
    ensures row in Published(d, t).rows && Published(d, t).txn.None?
  {
    hide FileOrder, PartialGeneration;
    assert row in multiset(d.rows + [Mark(t.record)]);
    assert row in multiset(FileOrder(d.rows + [Mark(t.record)]));
  }

  /** A hashed row's generation is complete under its own commit. */
  lemma RowIsCompleted(d: Disk, t: Txn, r: Record)
    requires HistoryOk(d, None) && Mark(r) in d.rows && Identity(r.payload) == Identity(t.record.payload)
    ensures var g := GenerationOf(d, t); g.complete.Some? && g.complete.value.commit == r.commit
  {
    hide Officials, OneEach, ChainOk;
    AllOfficial(d.rows);
    MemberOfOfficials(d.rows, Mark(r));
    var os := Officials(d.rows);
    var k :| 0 <= k < |os| && os[k] == Mark(r);
    assert Chained(d, os, k, None);
  }

  lemma LegacyIsNotReplaced(d: Disk, t: Txn, row: Row, writes: nat)
    requires d.txn.None? && GenerationOf(d, t).complete.None?
    requires row in d.rows && row.Legacy? && SameSlot(row, t.record) && Mark(t.record) !in d.rows
    ensures Attempt(d.(txn := Some(t)), writes).0 != Published(d, t)
  {
    hide Intact, HistoryOk, ReferencesOk, Replay, SameSlot, Published;
    var staged := d.(txn := Some(t));
    assert GenerationOf(staged, t) == GenerationOf(d, t);
    ReplayLosesTheRow(staged, t, 1, writes, row);
    KeepsEveryRow(d, t, row);
  }

  lemma InUse(d: Disk, t: Txn) returns (row: Row)
    requires Accepted(d, t) && !Fresh(d, t) && GenerationOf(d, t).complete.None?
    ensures row in d.rows && row.Legacy? && SameSlot(row, t.record) && Mark(t.record) !in d.rows
  {
    hide ReferencesOk, HistoryOk, GenerationOf, CompletionOk, RowIdentity, Identity;
    row :| row in d.rows && Official(row) && RowIdentity(row) == Identity(t.record.payload);
    SlotOf(row, t.record);
    if row.Mark? {
      RowIsCompleted(d, t, row.record);
    }
    if Mark(t.record) in d.rows {
      RowIsCompleted(d, t, t.record);
    }
  }

  lemma SlotOf(row: Row, r: Record)
    requires Official(row) && RowIdentity(row) == Identity(r.payload)
    ensures SameSlot(row, r) && (row.Mark? ==> Identity(row.record.payload) == Identity(r.payload))
  {
  }

  lemma GenerationIsAnothers(d: Disk, t: Txn)
    requires Accepted(d, t) && GenerationOf(d, t).complete.Some?
    ensures GenerationOf(d, t).complete.value.commit != t.record.commit
  {
    hide CanStage;
  }

  /** An accepted record whose identity is in use is never published, whatever the power does. */
  lemma InUseIsNotPublished(d: Disk, t: Txn, writes: nat)
    requires Accepted(d, t) && !Fresh(d, t)
    ensures Attempt(d.(txn := Some(t)), writes).0 != Published(d, t)
  {
    hide Fresh, Attempt, Published, SameSlot;
    if GenerationOf(d, t).complete.Some? {
      GenerationIsAnothers(d, t);
      CompletedIsRefused(d, t, writes);
      NoIntentLeft(d, t);
    } else {
      var row := InUse(d, t);
      LegacyIsNotReplaced(d, t, row, writes);
    }
  }

  lemma NoIntentLeft(d: Disk, t: Txn)
    ensures Published(d, t).txn.None?
  {
    hide FileOrder, PartialGeneration;
  }

  /** What an uninterrupted publication does with an accepted record: it succeeds exactly when the identity
      is not in use; if the record does not sort last, nothing can be staged any more. */
  lemma MisplacedIsPublished(d: Disk, t: Txn, writes: nat)
    requires Accepted(d, t) && writes >= LAST_WRITE
    ensures Attempt(d.(txn := Some(t)), writes) == (Published(d, t), Recovered(false)) <==> Fresh(d, t)
    ensures Fresh(d, t) && !Extends(d.rows, t.payload) ==>
      forall base: Option<Json>, next: Payload :: !CanStage(Published(d, t), base, next)
  {
    if Fresh(d, t) {
      AcceptedFreshIsStaged(d, t);
      FullyReplayed(d, t, writes);
      MustSortLast(d, t, 9, Published(d, t), false);
    } else {
      InUseIsNotPublished(d, t, writes);
    }
    hide Accepted, Staged, Fresh, Attempt, HistoryOk, ReferencesOk, Extends, FileOrder;
  }

  /** Before any write recovery refuses nothing. */
  lemma AttemptReplays(d: Disk, t: Txn, writes: nat)
    requires Staged(d, t)
    ensures Attempt(d.(txn := Some(t)), writes) == Replay(Progress(d, t, 0), t, 1, writes)
  {
    hide Staged, HistoryOk, ReferencesOk, CompletionOk, Replay, Intact, FileOrder, Progress, Published, GenerationOf;
    ProgressStartsStaged(d, t);
    IntentIsIntact(d, t);
    ProgressFacts(d, t, 0);
    HistoryAlongTheWay(d, t, 0);
    ReferencesAlongTheWay(d, t, 0, Progress(d, t, 0), true);
    CompleteAtNine(d, t, 0);
  }

  lemma FullyReplayed(d: Disk, t: Txn, writes: nat)
    requires Staged(d, t) && writes >= LAST_WRITE
    ensures Attempt(d.(txn := Some(t)), writes) == (Published(d, t), Recovered(false))
  {
    hide Staged, Attempt, Replay, Progress, Published;
    AttemptReplays(d, t, writes);
    ReplayAdvances(d, t, 0, 1, writes);
  }

  /** A power loss between its row and the end of its publication can never be recovered from. */
  lemma MisplacedIsStuck(d: Disk, t: Txn, n: nat, writes: nat)
    requires Staged(d, t) && 7 <= n <= 9 && !Extends(d.rows, t.payload)
    ensures Attempt(Progress(d, t, n), writes).0 == Progress(d, t, n)
    ensures Attempt(Progress(d, t, n), writes).1.Refused?
  {
    IntentIsIntact(d, t);
    ProgressFacts(d, t, n);
    MustSortLast(d, t, n, Progress(d, t, n), true);
    hide Staged, HistoryOk, ReferencesOk, CompletionOk, Replay, Extends, Intact, FileOrder, Progress, GenerationOf;
  }

  lemma {:induction false} CutReplay(d: Disk, t: Txn, i: int, left: nat)
    requires Staged(d, t) && 1 <= i <= LAST_WRITE && i + left <= LAST_WRITE
    ensures Replay(Progress(d, t, i - 1), t, i, left) == (Progress(d, t, i - 1 + left), PowerLoss)
    decreases left
  {
    hide Staged, Write, Progress, Published;
    WriteAdvances(d, t, i - 1, i);
    if left > 0 {
      CutReplay(d, t, i + 1, left - 1);
    }
  }

  lemma CutAttempt(d: Disk, t: Txn, writes: nat)
    requires Staged(d, t) && writes < LAST_WRITE
    ensures Attempt(d.(txn := Some(t)), writes) == (Progress(d, t, writes), PowerLoss)
  {
    hide Staged, Attempt, Replay, Progress;
    AttemptReplays(d, t, writes);
    CutReplay(d, t, 1, writes);
  }

  /** Whatever number of power losses, each after any durable write, one uninterrupted recovery then ends
      in the published state. */
  ghost predicate Recoverable(d: Disk, t: Txn)
  {
    forall cuts: seq<nat>, writes: nat | writes >= LAST_WRITE ::
      Attempt(Attempts(d.(txn := Some(t)), cuts), writes).0 == Published(d, t)
  }

  /** A record staging accepts survives every series of power losses exactly when its identity is not in
      use and it sorts after every official row. */
  lemma RecoverableExactly(d: Disk, t: Txn)
    requires Accepted(d, t)
    ensures Recoverable(d, t) <==> Fresh(d, t) && Extends(d.rows, t.payload)
  {
    var staged := d.(txn := Some(t));
    hide Accepted, Fresh, Extends, Published, Attempt, Attempts;
    if !Fresh(d, t) {
      InUseIsNotPublished(d, t, LAST_WRITE);
      NoCut(staged);
      assert Attempt(Attempts(staged, []), LAST_WRITE).0 != Published(d, t);
    } else {
      AcceptedFreshIsStaged(d, t);
      hide Staged;
      if Extends(d.rows, t.payload) {
        forall cuts: seq<nat>, writes: nat | writes >= LAST_WRITE
          ensures Attempt(Attempts(staged, cuts), writes).0 == Published(d, t)
        {
          CrashesDoNotMatter(d, t, cuts, writes);
        }
      } else {
        MisplacedIsNotRecovered(d, t);
        assert Attempt(Attempts(staged, [7]), LAST_WRITE).0 != Published(d, t);
      }
    }
  }

  lemma MisplacedIsNotRecovered(d: Disk, t: Txn)
    requires Staged(d, t) && !Extends(d.rows, t.payload)
    ensures Attempt(Attempts(d.(txn := Some(t)), [7]), LAST_WRITE).0 != Published(d, t)
  {
    hide Staged, Extends, Published, Attempt, Attempts, Progress;
    CutAttempt(d, t, 7);
    MisplacedIsStuck(d, t, 7, LAST_WRITE);
    OneCut(d.(txn := Some(t)), 7);
    StillPending(d, t);
  }

  lemma NoCut(d: Disk)
    ensures Attempts(d, []) == d
  {
  }

  lemma OneCut(d: Disk, cut: nat)
    ensures Attempts(d, [cut]) == Attempt(d, cut).0
  {
    hide Attempt;
    assert [cut][..0] == [];
  }

  lemma StillPending(d: Disk, t: Txn)
    ensures Progress(d, t, 7) != Published(d, t)
  {
    hide FileOrder;
  }

  lemma GenerationAfterwards(start: Disk, t: Txn)
    requires start.gens == map[]
    ensures var gens := Published(start, t).gens;
      gens.Keys == {Identity(t.payload)} && gens[Identity(t.payload)].complete == Some(Marker(t))
  {
    hide FileOrder, GenerationOf, Marker;
  }

  lemma AfterTheFirst(start: Disk, t: Txn)
    requires start.rows == [] && start.events == [] && start.gens == map[]
    requires Staged(start, t) && Extends(start.rows, t.payload)
    ensures var d := Published(start, t);
      && (forall next: Payload | next.ts >= t.payload.ts :: CanStage(d, d.account, next))
      && (forall row :: row in d.rows ==> row == Mark(t.record)) && Mark(t.record) in d.rows
      && d.events == [t.event] && d.gens.Keys == {Identity(t.payload)}
      && forall id | id in d.gens :: d.gens[id].complete == Some(Marker(t))
  {
    hide Staged, CanStage, HistoryOk, ReferencesOk, CompletionOk, Officials, Published, Extends;
    PublishedVerifies(start, t);
    GenerationAfterwards(start, t);
    var d := Published(start, t);
    forall row | row in d.rows ensures row == Mark(t.record) {
      assert row in multiset(d.rows);
    }
    assert Mark(t.record) in multiset(d.rows);
  }

  /** Such a record can be staged: a second heartbeat of the same time for an earlier schedule slot. */
  lemma MisplacedIsStaged() returns (d: Disk, t: Txn)
    ensures Accepted(d, t) && Staged(d, t) && !Extends(d.rows, t.payload)
  {
    hide CanStage, Officials, HistoryOk, ReferencesOk, Staged, Published;
    var start := Disk(None, None, false, [], [], map[], map[]);
    var first := Prepared(start, "first", Payload(10, Some(5), ""), 1, "");
    FirstHeartbeatIsStaged(start, "first", Payload(10, Some(5), ""), 1, "");
    AfterTheFirst(start, first);
    d := Published(start, first);
    t := Prepared(d, "second", Payload(10, Some(3), ""), 2, "");
    assert !HasId(d.events, 2);
    StagedByParts(d, "second", Payload(10, Some(3), ""), 2, "");
  }

  /** A record that reuses the identity of a published one, under another commit, is refused by every
      recovery and stays pending. */
  lemma ReusedIdentityIsStuck(d: Disk, t: Txn, r: Record, writes: nat)
    requires Accepted(d, t) && Mark(r) in d.rows
    requires Identity(r.payload) == Identity(t.payload) && r.commit != t.commit
    ensures var staged := d.(txn := Some(t)); Attempt(staged, writes).0 == staged && Attempt(staged, writes).1.Refused?
  {
    hide ReferencesOk, HistoryOk, Officials, Identity, Attempt, GenerationOf, NewCommit;
    RowIsCompleted(d, t, r);
    CompletedIsRefused(d, t, writes);
  }

  /** Staging accepts such a record: a strictly later heartbeat for the same schedule slot.  It sorts last,
      and is stuck all the same. */
  lemma ReusedSlotIsStaged() returns (d: Disk, t: Txn)
    ensures Accepted(d, t) && Extends(d.rows, t.payload) && !Fresh(d, t)
    ensures forall writes: nat :: Attempt(d.(txn := Some(t)), writes).0 == d.(txn := Some(t))
  {
    hide CanStage, Officials, HistoryOk, ReferencesOk, Staged, Published, Attempt;
    var start := Disk(None, None, false, [], [], map[], map[]);
    var first := Prepared(start, "first", Payload(10, Some(5), ""), 1, "");
    FirstHeartbeatIsStaged(start, "first", Payload(10, Some(5), ""), 1, "");
    AfterTheFirst(start, first);
    d := Published(start, first);
    t := Prepared(d, "second", Payload(11, Some(5), ""), 2, "");
    assert !HasId(d.events, 2);
    assert RowIdentity(Mark(first.record)) == 5;
    forall writes: nat ensures Attempt(d.(txn := Some(t)), writes).0 == d.(txn := Some(t)) {
      ReusedIdentityIsStuck(d, t, first.record, writes);
    }
  }

  // ----- Runs of heartbeats -----

  /** A desk with no history yet can stage its first heartbeat. */
  lemma FirstHeartbeatIsStaged(d: Disk, account: Json, payload: Payload, commit: nat, provenance: Json)
    requires d.rows == [] && d.events == [] && d.gens == map[] && d.reconciles == map[]
    requires d.txn.None? && !d.reconcilePending
    ensures Staged(d, Prepared(d, account, payload, commit, provenance)) && Extends(d.rows, payload)
  {
    assert Officials([]) == Sort(RowBefore, []) == [];
  }

  /** Over a published heartbeat the next one can be staged and sorts last, if its stamp is later and its
      identity, commit and generation are unused; so runs of heartbeats with strictly increasing stamps
      never lose the chain. */
  lemma LaterHeartbeatIsStaged(d: Disk, t: Txn, account: Json, next: Payload, commit: nat, provenance: Json)
    requires Staged(d, t) && Extends(d.rows, t.payload) && next.ts > t.payload.ts
    requires Fresh(Published(d, t), Prepared(Published(d, t), account, next, commit, provenance))
    ensures var p := Published(d, t);
      Staged(p, Prepared(p, account, next, commit, provenance)) && Extends(p.rows, next)
  {
    hide Staged, Published, CanStage, Fresh, HistoryOk, ReferencesOk, CompletionOk, FileOrder, Officials, Extends;
    PublishedVerifies(d, t);
    StagedParts(d, t);
    ExtendsLater(d.rows, Published(d, t).rows, t.record, next);
    StagedByParts(Published(d, t), account, next, commit, provenance);
  }

  lemma ExtendsLater(rows: seq<Row>, grown: seq<Row>, r: Record, next: Payload)
    requires Extends(rows, r.payload) && multiset(grown) == multiset(rows) + multiset{Mark(r)} && next.ts > r.payload.ts
    ensures Extends(grown, next)
  {
    forall row | row in grown && Official(row) ensures Earlier(ChainKey(PayloadOf(row)), ChainKey(next)) {
      assert row in multiset(grown);
      assert row in multiset(rows) || row == Mark(r);
    }
  }

  lemma StagedByParts(d: Disk, account: Json, payload: Payload, commit: nat, provenance: Json)
    requires CanStage(d, d.account, payload) && Fresh(d, Prepared(d, account, payload, commit, provenance))
    ensures Staged(d, Prepared(d, account, payload, commit, provenance))
  {
    hide CanStage, Fresh, Officials;
  }

  /** One heartbeat and the power losses that strike its publication. */
  datatype Beat = Beat(account: Json, payload: Payload, commit: nat, provenance: Json, cuts: seq<nat>)

  function Intended(d: Disk, b: Beat): Txn
  {
    Prepared(d, b.account, b.payload, b.commit, b.provenance)
  }

  /** The heartbeat is staged, its publication is cut short as often as its power losses say, and then
      recovered. */
  function AfterBeat(d: Disk, b: Beat): Disk
  {
    Attempt(Attempts(d.(txn := Some(Intended(d, b))), b.cuts), LAST_WRITE).0
  }

  function AfterBeats(d: Disk, beats: seq<Beat>): Disk
  {
    if beats == [] then d else AfterBeat(AfterBeats(d, beats[..|beats| - 1]), beats[|beats| - 1])
  }

  /** Stamps increase strictly, and no identity or commit is used twice. */
  predicate InOrder(beats: seq<Beat>)
  {
    forall i, j | 0 <= i < j < |beats| ::
      && beats[i].payload.ts < beats[j].payload.ts && beats[i].commit != beats[j].commit
      && Identity(beats[i].payload) != Identity(beats[j].payload)
  }

  predicate Empty(d: Disk)
  {
    d.rows == [] && d.events == [] && d.gens == map[] && d.reconciles == map[] && d.txn.None? && !d.reconcilePending
  }

  predicate Records(row: Row, b: Beat)
  {
    row.Mark? && row.record.payload == b.payload && row.record.commit == b.commit && row.record.account == b.account
    && row.record.provenance == b.provenance
  }

  /** The chain holds every heartbeat of the run, once and in order. */
  predicate Chains(d: Disk, beats: seq<Beat>)
  {
    && |Officials(d.rows)| == |beats| == |d.events|
    && (forall k | 0 <= k < |beats| :: Records(Officials(d.rows)[k], beats[k]))
    && (forall k | 0 <= k < |beats| :: d.events[k].id == beats[k].commit)
    && (beats != [] ==> d.account == Some(beats[|beats| - 1].account))
  }

  /** What the next heartbeat of the run relies on. */
  ghost predicate ReadyForNext(d: Disk, beats: seq<Beat>)
  {
    && (forall id | id in d.gens :: exists k :: 0 <= k < |beats| && Identity(beats[k].payload) == id)
    && (forall next: Payload | beats == [] || next.ts >= beats[|beats| - 1].payload.ts :: CanStage(d, d.account, next))
  }

  lemma NextInOrder(front: seq<Beat>, b: Beat)
    requires InOrder(front + [b])
    ensures forall k | 0 <= k < |front| :: front[k].payload.ts < b.payload.ts && front[k].commit != b.commit
                                           && Identity(front[k].payload) != Identity(b.payload)
  {
    var beats := front + [b];
    hide Identity;
    forall k | 0 <= k < |front|
      ensures front[k].payload.ts < b.payload.ts && front[k].commit != b.commit
           && Identity(front[k].payload) != Identity(b.payload)
    {
      assert beats[k] == front[k] && beats[|front|] == b;
    }
  }

  lemma RowsAreEarlier(d: Disk, front: seq<Beat>, b: Beat, row: Row)
    requires Chains(d, front) && InOrder(front + [b]) && row in d.rows && Official(row)
    ensures RowIdentity(row) != Identity(b.payload) && PayloadOf(row).ts < b.payload.ts
  {
    hide InOrder, Identity, Officials;
    NextInOrder(front, b);
    MemberOfOfficials(d.rows, row);
    var k :| 0 <= k < |front| && Officials(d.rows)[k] == row;
  }

  lemma RunIsFresh(d: Disk, front: seq<Beat>, b: Beat)
    requires Chains(d, front) && ReadyForNext(d, front) && InOrder(front + [b])
    ensures Fresh(d, Intended(d, b)) && Extends(d.rows, b.payload)
  {
    hide CanStage, InOrder, Identity, Officials, Records;
    NextInOrder(front, b);
    forall row | row in d.rows && Official(row)
      ensures RowIdentity(row) != Identity(b.payload) && PayloadOf(row).ts < b.payload.ts
    {
      RowsAreEarlier(d, front, b, row);
    }
  }

  lemma BeatPublishes(d: Disk, front: seq<Beat>, b: Beat)
    requires Chains(d, front) && ReadyForNext(d, front) && InOrder(front + [b])
    ensures var t := Intended(d, b);
      Staged(d, t) && Extends(d.rows, t.payload) && AfterBeat(d, b) == Published(d, t)
  {
    RunIsFresh(d, front, b);
    assert front != [] ==> (front + [b])[|front| - 1] == front[|front| - 1] && (front + [b])[|front|] == b;
    hide CanStage, Fresh, Extends, Officials, Identity, Staged, Published, Attempt, Attempts, Records;
    StagedByParts(d, b.account, b.payload, b.commit, b.provenance);
    CrashesDoNotMatter(d, Intended(d, b), b.cuts, LAST_WRITE);
  }

  lemma BeatIsChained(d: Disk, front: seq<Beat>, b: Beat, t: Txn)
    requires Chains(d, front) && ReadyForNext(d, front)
    requires t == Intended(d, b) && Staged(d, t) && Extends(d.rows, t.payload)
    ensures Chains(Published(d, t), front + [b]) && ReadyForNext(Published(d, t), front + [b])
    ensures HistoryOk(Published(d, t), None) && ReferencesOk(Published(d, t), None) && Published(d, t).txn.None?
  {
    hide Staged, Extends, CanStage, HistoryOk, ReferencesOk, CompletionOk, Officials, FileOrder, Identity,
        PartialGeneration;
    PublishedVerifies(d, t);
    var p, beats := Published(d, t), front + [b];
    forall id | id in p.gens ensures exists k :: 0 <= k < |beats| && Identity(beats[k].payload) == id {
      if id in d.gens {
        var k :| 0 <= k < |front| && Identity(front[k].payload) == id;
        assert beats[k] == front[k];
      } else {
        assert beats[|front|] == b;
      }
    }
  }

  /** Over any run of heartbeats from an empty desk, each with any number of power losses anywhere in its
      publication, the chain ends with exactly these heartbeats in order, and verifies. */
  lemma {:induction false} RunsKeepTheChain(start: Disk, beats: seq<Beat>)
    requires Empty(start) && InOrder(beats)
    ensures var d := AfterBeats(start, beats);
      && Chains(d, beats) && ReadyForNext(d, beats)
      && HistoryOk(d, None) && ReferencesOk(d, None) && d.txn.None?
  {
    if beats == [] {
      EmptyIsReady(start);
      hide Chains, ReadyForNext, HistoryOk, ReferencesOk;
    } else {
      var front, b := beats[..|beats| - 1], beats[|beats| - 1];
      assert front + [b] == beats;
      assert InOrder(front) by {
        assert forall k | 0 <= k < |front| :: front[k] == beats[k];
      }
      hide Chains, ReadyForNext, InOrder, Staged, Extends, HistoryOk, ReferencesOk, AfterBeat, Published;
      RunsKeepTheChain(start, front);
      var d := AfterBeats(start, front);
      BeatPublishes(d, front, b);
      BeatIsChained(d, front, b, Intended(d, b));
    }
  }

  lemma EmptyIsReady(start: Disk)
    requires Empty(start)
    ensures Chains(start, []) && ReadyForNext(start, []) && HistoryOk(start, None) && ReferencesOk(start, None)
  {
    assert Officials([]) == Sort(RowBefore, []) == [];
  }
}
