/** Staging a heartbeat transaction and publishing it write by write.

    Publication is ten durable writes in a fixed order.  A power loss stops it after any number of them;
    recovery starts again from the intent.  `Attempt` is the whole of one recovery that is cut short after
    a given number of writes. */
module Heartbeat {
  import opened Results
  import opened Sorting
  import opened HeartbeatState

  datatype Outcome = NothingPending | Recovered(alreadyComplete: bool) | PowerLoss | Refused(reason: string)

  // ----- Staging -----

  function Prepared(d: Disk, account: Json, payload: Payload, commit: nat, provenance: Json): Txn
  {
    var previous := Last(Officials(d.rows));
    var root := HeartbeatRoot(commit, payload, account, provenance, previous);
    var event := Event(commit, true, payload.ts, Last(d.events), d.account, account, root);
    var record := Record(payload, commit, previous, account, provenance, event, d.account, root);
    Txn(commit, d.account, account, record, payload, provenance, event, root)
  }

  predicate CanStage(d: Disk, expectedBase: Option<Json>, payload: Payload)
  {
    && d.account == expectedBase && d.txn.None? && !d.reconcilePending
    && HistoryOk(d, None) && ReferencesOk(d, None)
    && (d.events != [] ==> var prior := d.events[|d.events| - 1];
                           Some(prior.account) == d.account && payload.ts >= prior.ts)
  }

  // ----- Publishing -----

  /** The ledger with the record in it, or the reason to refuse. */
  function Appended(d: Disk, r: Record): Result<seq<Row>>
  {
    if !HistoryOk(d, Some(r)) then Err("heartbeat history does not verify")
    else if Mark(r) in d.rows then Ok(d.rows)
    else if exists row | row in d.rows :: Conflicts(row, r) then
      Err("conflicting immutable heartbeat for schedule slot")
    else
      var kept := Others(d.rows, r);
      if r.previous != Last(Officials(kept)) then Err("hash chain does not extend the latest official mark")
      else Ok(FileOrder(kept + [Mark(r)]))
  }

  predicate SameSlot(row: Row, r: Record)
  {
    Official(row) && RowIdentity(row) == Identity(r.payload)
  }

  predicate Conflicts(row: Row, r: Record)
  {
    SameSlot(row, r) && r.payload.slot.Some? && row != Mark(r)
  }

  lemma OnePerIdentity(d: Disk, allow: Option<Record>, a: Row, b: Row)
    requires HistoryOk(d, allow) && a in d.rows && b in d.rows
    requires Official(a) && Official(b) && RowIdentity(a) == RowIdentity(b)
    ensures a == b
  {
    hide Chained, Officials;
    var os := Officials(d.rows);
    AllOfficial(d.rows);
    assert a in multiset(os) && b in multiset(os);
  }

  /** The rows that do not have the record's identity. */
  function Others(rows: seq<Row>, r: Record): seq<Row>
  {
    if rows == [] then []
    else
      var rest := Others(rows[..|rows| - 1], r);
      var row := rows[|rows| - 1];
      if SameSlot(row, r) then rest else rest + [row]
  }

  lemma {:induction false} OthersMembers(rows: seq<Row>, r: Record, row: Row)
    ensures row in Others(rows, r) <==> row in rows && !SameSlot(row, r)
  {
    if rows == [] {
    } else {
      OthersMembers(rows[..|rows| - 1], r, row);
      assert rows == rows[..|rows| - 1] + [rows[|rows| - 1]];
    }
  }

  /** What an append leaves in the ledger: the record, and every row of another identity.  A slotted record
      replaces nothing; one without a slot silently replaces a row whose identity is its time stamp. */
  lemma AppendKeepsOtherIdentities(d: Disk, r: Record, row: Row)
    requires Appended(d, r).Ok? && Mark(r) !in d.rows
    ensures row in Appended(d, r).value <==> row == Mark(r) || (row in d.rows && !SameSlot(row, r))
    ensures r.payload.slot.Some? && row in d.rows ==> row in Appended(d, r).value
  {
    hide HistoryOk, Officials, SameSlot, FileOrder;
    var kept := Others(d.rows, r);
    OthersMembers(d.rows, r, row);
    assert Appended(d, r).value == FileOrder(kept + [Mark(r)]);
    assert row in multiset(FileOrder(kept + [Mark(r)])) <==> row in multiset(kept + [Mark(r)]);
    hide Others;
    assert Conflicts(row, r) || row == Mark(r) || r.payload.slot.None? || !SameSlot(row, r);
  }

  const OVERTAKEN: Row := Legacy(Payload(3, Some(7), ""))
  const NEWEST: Row := Legacy(Payload(5, Some(5), ""))
  const LEGACY_DESK: Disk := Disk(None, None, false, [OVERTAKEN, NEWEST], [], map[], map[])

  lemma LegacyOfficials()
    ensures OfficialOnly([NEWEST]) == [NEWEST] && OfficialOnly([OVERTAKEN, NEWEST]) == [OVERTAKEN, NEWEST]
  {
    assert [OVERTAKEN][..0] == [] && OfficialOnly([OVERTAKEN]) == [OVERTAKEN];
    assert [OVERTAKEN, NEWEST][..1] == [OVERTAKEN];
    assert [NEWEST][..0] == [];
  }

  lemma LegacySorted()
    ensures Sort(RowBefore, [NEWEST]) == [NEWEST] && Sort(RowBefore, [OVERTAKEN, NEWEST]) == [OVERTAKEN, NEWEST]
  {
    assert [OVERTAKEN][..0] == [] && Sort(RowBefore, [OVERTAKEN]) == [OVERTAKEN];
    assert [OVERTAKEN, NEWEST][..1] == [OVERTAKEN];
    assert [NEWEST][..0] == [];
  }

  lemma LegacyChain()
    ensures Officials([OVERTAKEN, NEWEST]) == [OVERTAKEN, NEWEST] && Officials([NEWEST]) == [NEWEST]
  {
    hide OfficialOnly, Sort;
    LegacyOfficials();
    LegacySorted();
  }

  lemma LegacyVerifies(allow: Option<Record>)
    ensures HistoryOk(LEGACY_DESK, allow) && ReferencesOk(LEGACY_DESK, None)
  {
    LegacyChain();
    hide Officials;
  }

  lemma OvertakenIsNotKept(r: Record)
    requires r.payload == Payload(7, None, "")
    ensures Others(LEGACY_DESK.rows, r) == [NEWEST]
  {
    assert Others([], r) == [];
    assert [OVERTAKEN][..0] == [] && Others([OVERTAKEN], r) == [];
    assert [OVERTAKEN, NEWEST][..1] == [OVERTAKEN] && Others([OVERTAKEN, NEWEST], r) == [] + [NEWEST];
  }

  lemma OvertakenIsDropped(r: Record)
    requires r.payload == Payload(7, None, "") && r.previous == Some(NEWEST)
    ensures Appended(LEGACY_DESK, r).Ok? && OVERTAKEN !in Appended(LEGACY_DESK, r).value
  {
    hide HistoryOk, Officials, Others, FileOrder;
    LegacyVerifies(Some(r));
    LegacyChain();
    OvertakenIsNotKept(r);
    assert OVERTAKEN !in multiset(FileOrder([NEWEST] + [Mark(r)]));
  }

  /** The replacement happens on a desk whose history verifies: a heartbeat without a slot is staged there,
      and appending it drops the row of the slot that equals its time. */
  lemma SlotlessRecordDropsARow(account: Json, commit: nat, provenance: Json)
    ensures var r := Prepared(LEGACY_DESK, account, Payload(7, None, ""), commit, provenance).record;
      && CanStage(LEGACY_DESK, None, r.payload)
      && Appended(LEGACY_DESK, r).Ok? && OVERTAKEN !in Appended(LEGACY_DESK, r).value
  {
    hide HistoryOk, ReferencesOk, Officials, Appended;
    LegacyVerifies(None);
    LegacyChain();
    OvertakenIsDropped(Prepared(LEGACY_DESK, account, Payload(7, None, ""), commit, provenance).record);
  }

  lemma OthersStep(rows: seq<Row>, i: nat, r: Record)
    requires i < |rows|
    ensures Others(rows[..i + 1], r) == Others(rows[..i], r) + if SameSlot(rows[i], r) then [] else [rows[i]]
  {
    assert rows[..i + 1][..i] == rows[..i];
  }

  function EventAppended(d: Disk, e: Event): Result<seq<Event>>
  {
    if !ReferencesOk(d, Some(e)) then Err("account events do not verify")
    else if e in d.events then Ok(d.events)
    else Ok(d.events + [e])
  }

  function GenerationOf(d: Disk, t: Txn): Generation
  {
    var id := Identity(t.record.payload);
    if id in d.gens then d.gens[id] else NO_GENERATION
  }

  function WithGeneration(d: Disk, t: Txn, g: Generation): Disk
  {
    d.(gens := d.gens[Identity(t.record.payload) := g])
  }

  function Marker(t: Txn): Completion
  {
    Completion(t.record.commit, t.record, t.record.account, t.record.provenance, t.event, t.payload,
               t.record.previous, t.root)
  }

  const LAST_WRITE := 10

  /** One durable write of the publication; an append that finds its entry in place writes nothing. */
  function Write(d: Disk, t: Txn, i: int): Result<Disk>
    requires 1 <= i <= LAST_WRITE
  {
    var g := GenerationOf(d, t);
    if i == 1 then Ok(d.(account := Some(t.account)))
    else if i == 2 then Ok(WithGeneration(d, t, g.(account := Some(t.account))))
    else if i == 3 then Ok(WithGeneration(d, t, g.(provenance := Some(t.provenance))))
    else if i == 4 then Ok(WithGeneration(d, t, g.(heartbeat := Some(t.record))))
    else if i == 5 then Ok(WithGeneration(d, t, g.(event := Some(t.event))))
    else if i == 6 then Ok(WithGeneration(d, t, g.(payload := Some(t.payload))))
    else if i == 7 then
      var rows := Appended(d, t.record);
      if rows.Err? then Err(rows.reason) else Ok(d.(rows := rows.value))
    else if i == 8 then
      var events := EventAppended(d, t.event);
      if events.Err? then Err(events.reason) else Ok(d.(events := events.value))
    else if i == 9 then Ok(WithGeneration(d, t, g.(complete := Some(Marker(t)))))
    else if !CompletionOk(d, t.record) then Err("published completion failed verification")
    else if d.account != Some(t.record.account) then Err("published account differs from the intent")
    else Ok(d.(txn := None))
  }

  /** The writes from `i` on, cut short when the power fails after `left` of them. */
  function Replay(d: Disk, t: Txn, i: int, left: nat): (Disk, Outcome)
    requires 1 <= i <= LAST_WRITE + 1
    decreases LAST_WRITE + 1 - i
  {
    if i == LAST_WRITE + 1 then (d, Recovered(false))
    else
      var next := Write(d, t, i);
      if next.Err? then (d, Refused(next.reason))
      else if left == 0 then (d, PowerLoss)
      else Replay(next.value, t, i + 1, left - 1)
  }

  /** The intent's parts are bound to each other. */
  predicate Intact(t: Txn)
  {
    var r, e := t.record, t.event;
    && r.account == t.account && r.provenance == t.provenance && r.event == e
    && r.base == e.base && r.account == e.account && t.payload == r.payload
    && t.root == r.root == e.root == HeartbeatRoot(t.commit, t.payload, t.account, t.provenance, r.previous)
  }

  function Attempt(d: Disk, writes: nat): (Disk, Outcome)
  {
    if d.txn.None? then (d, NothingPending)
    else if d.reconcilePending then (d, Refused("both transactions are pending"))
    else
      var t := d.txn.value;
      var complete := GenerationOf(d, t).complete;
      if !Intact(t) then (d, Refused("transaction hash mismatch"))
      else if !HistoryOk(d, Some(t.record)) then (d, Refused("heartbeat history does not verify"))
      else if !ReferencesOk(d, Some(t.event)) then (d, Refused("account events do not verify"))
      else if complete.Some? && complete.value.commit != t.record.commit then
        (d, Refused("existing completion conflicts with the intent"))
      else if CompletionOk(d, t.record) then
        if d.account != Some(t.record.account) then (d, Refused("completed account differs from the intent"))
        else if Mark(t.record) !in d.rows then (d, Refused("completed heartbeat is absent from the index"))
        else if writes == 0 then (d, PowerLoss)
        else (d.(txn := None), Recovered(true))
      else if d.account !in {t.base, Some(t.account)} then (d, Refused("account lineage conflict"))
      else Replay(d, t, 1, writes)
  }

  lemma Conflict(d: Disk, r: Record, row: Row)
    requires HistoryOk(d, Some(r)) && row in d.rows && Conflicts(row, r)
    ensures Mark(r) !in d.rows
  {
    hide HistoryOk;
    if Mark(r) in d.rows {
      OnePerIdentity(d, Some(r), row, Mark(r));
    }
  }

  lemma NotItself(row: Row, r: Record)
    ensures Others([], r) == []
    ensures !SameSlot(row, r) ==> row != Mark(r)
  {
  }

  // ----- The code -----

  class StateDirectory {
    var disk: Disk

    constructor (disk: Disk)
      ensures this.disk == disk
    {
      this.disk := disk;
    }

    method Stage(account: Json, payload: Payload, commit: nat, provenance: Json, expectedBase: Option<Json>)
        returns (staged: Result<Record>)
      modifies this
      ensures staged.Ok? <==> CanStage(old(disk), expectedBase, payload)
      ensures staged.Err? ==> disk == old(disk)
      ensures staged.Ok? ==>
        var t := Prepared(old(disk), account, payload, commit, provenance);
        disk == old(disk).(txn := Some(t)) && staged.value == t.record
    {
      if disk.account != expectedBase {
        return Err("staging lost its optimistic account-state lock");
      }
      if disk.txn.Some? || disk.reconcilePending {
        return Err("unfinished transaction already exists");
      }
      if !HistoryOk(disk, None) {
        return Err("heartbeat history does not verify");
      }
      if !ReferencesOk(disk, None) {
        return Err("account events do not verify");
      }
      if disk.events != [] {
        var prior := disk.events[|disk.events| - 1];
        if Some(prior.account) != disk.account || payload.ts < prior.ts {
          return Err("account event head does not match the transaction base account");
        }
      }
      var t := Prepared(disk, account, payload, commit, provenance);
      disk := disk.(txn := Some(t));
      return Ok(t.record);
    }

    /** Inserts the record into the ledger, or finds it there. */
    method AppendHeartbeat(r: Record) returns (failed: Option<string>)
      modifies this
      ensures match Appended(old(disk), r)
        case Ok(rows) => failed.None? && disk == old(disk).(rows := rows)
        case Err(reason) => failed == Some(reason) && disk == old(disk)
    {
      hide HistoryOk, Officials, FileOrder, Others, SameSlot;
      if !HistoryOk(disk, Some(r)) {
        return Some("heartbeat history does not verify");
      }
      var rows, kept: seq<Row> := disk.rows, [];
      NotItself(Mark(r), r);
      assert rows[..0] == [];
      for i := 0 to |rows|
        invariant disk == old(disk) && kept == Others(rows[..i], r)
        invariant forall k | 0 <= k < i :: rows[k] != Mark(r) && !Conflicts(rows[k], r)
      {
        OthersStep(rows, i, r);
        if SameSlot(rows[i], r) {
          if r.payload.slot.Some? && rows[i] != Mark(r) {
            Conflict(disk, r, rows[i]);
            return Some("conflicting immutable heartbeat for schedule slot");
          }
          if rows[i] == Mark(r) {
            return None;
          }
        } else {
          kept := kept + [rows[i]];
        }
        NotItself(rows[i], r);
      }
      assert rows[..|rows|] == rows;
      if r.previous != Last(Officials(kept)) {
        return Some("hash chain does not extend the latest official mark");
      }
      disk := disk.(rows := FileOrder(kept + [Mark(r)]));
      return None;
    }

    method AppendAccountEvent(e: Event) returns (failed: Option<string>)
      modifies this
      ensures match EventAppended(old(disk), e)
        case Ok(events) => failed.None? && disk == old(disk).(events := events)
        case Err(reason) => failed == Some(reason) && disk == old(disk)
    {
      if !ReferencesOk(disk, Some(e)) {
        return Some("account events do not verify");
      }
      if e !in disk.events {
        disk := disk.(events := disk.events + [e]);
      }
      return None;
    }

    /** Makes one durable write unless the power has failed. */
    method DurableWrite(next: Disk, left: nat) returns (written: bool, rest: nat)
      modifies this
      ensures written <==> left > 0
      ensures written ==> disk == next && rest == left - 1
      ensures !written ==> disk == old(disk)
    {
      if left == 0 {
        return false, 0;
      }
      disk := next;
      return true, left - 1;
    }

    /** The generation's five artifacts. */
    method PublishGeneration(t: Txn, writes: nat) returns (done: bool, left: nat)
      modifies this
      ensures done ==> Replay(old(disk), t, 2, writes) == Replay(disk, t, 7, left)
      ensures !done ==> Replay(old(disk), t, 2, writes) == (disk, PowerLoss)
    {
      hide HistoryOk, ReferencesOk, CompletionOk, Appended, EventAppended;
      var g := GenerationOf(disk, t).(account := Some(t.account));
      done, left := DurableWrite(WithGeneration(disk, t, g), writes);
      if !done {
        return;
      }
      assert Replay(old(disk), t, 2, writes) == Replay(disk, t, 3, left);
      g := g.(provenance := Some(t.provenance));
      done, left := DurableWrite(WithGeneration(disk, t, g), left);
      if !done {
        return;
      }
      assert Replay(old(disk), t, 2, writes) == Replay(disk, t, 4, left);
      g := g.(heartbeat := Some(t.record));
      done, left := DurableWrite(WithGeneration(disk, t, g), left);
      if !done {
        return;
      }
      assert Replay(old(disk), t, 2, writes) == Replay(disk, t, 5, left);
      g := g.(event := Some(t.event));
      done, left := DurableWrite(WithGeneration(disk, t, g), left);
      if !done {
        return;
      }
      assert Replay(old(disk), t, 2, writes) == Replay(disk, t, 6, left);
      g := g.(payload := Some(t.payload));
      done, left := DurableWrite(WithGeneration(disk, t, g), left);
    }

    /** The ledger row, the account event, the completion marker, and the end of the intent. */
    method PublishIndexes(t: Txn, writes: nat) returns (o: Outcome)
      modifies this
      ensures (disk, o) == Replay(old(disk), t, 7, writes)
    {
      hide HistoryOk, ReferencesOk, CompletionOk, Appended, EventAppended;
      ghost var whole := Replay(disk, t, 7, writes);
      var left := writes;
      if left == 0 {
        var rows := Appended(disk, t.record);
        return if rows.Err? then Refused(rows.reason) else PowerLoss;
      }
      var failed := AppendHeartbeat(t.record);
      if failed.Some? {
        return Refused(failed.value);
      }
      left := left - 1;
      assert whole == Replay(disk, t, 8, left);
      if left == 0 {
        var events := EventAppended(disk, t.event);
        return if events.Err? then Refused(events.reason) else PowerLoss;
      }
      failed := AppendAccountEvent(t.event);
      if failed.Some? {
        return Refused(failed.value);
      }
      left := left - 1;
      assert whole == Replay(disk, t, 9, left);
      var written;
      written, left := DurableWrite(WithGeneration(disk, t, GenerationOf(disk, t).(complete := Some(Marker(t)))), left);
      if !written {
        return PowerLoss;
      }
      assert whole == Replay(disk, t, 10, left);
      if !CompletionOk(disk, t.record) {
        return Refused("published completion failed verification");
      }
      if disk.account != Some(t.record.account) {
        return Refused("published account differs from the intent");
      }
      written, left := DurableWrite(disk.(txn := None), left);
      return if written then Recovered(false) else PowerLoss;
    }

    /** Replays an interrupted publication; the power may fail after `writes` durable writes. */
    method Recover(writes: nat) returns (o: Outcome)
      modifies this
      ensures (disk, o) == Attempt(old(disk), writes)
    {
      hide HistoryOk, ReferencesOk, CompletionOk, Appended, EventAppended;
      if disk.txn.None? {
        return NothingPending;
      }
      if disk.reconcilePending {
        return Refused("both transactions are pending");
      }
      var t := disk.txn.value;
      if !Intact(t) {
        return Refused("transaction hash mismatch");
      }
      if !HistoryOk(disk, Some(t.record)) {
        return Refused("heartbeat history does not verify");
      }
      if !ReferencesOk(disk, Some(t.event)) {
        return Refused("account events do not verify");
      }
      var complete := GenerationOf(disk, t).complete;
      if complete.Some? && complete.value.commit != t.record.commit {
        return Refused("existing completion conflicts with the intent");
      }
      var written, left;
      if CompletionOk(disk, t.record) {
        if disk.account != Some(t.record.account) {
          return Refused("completed account differs from the intent");
        }
        if Mark(t.record) !in disk.rows {
          return Refused("completed heartbeat is absent from the index");
        }
        written, left := DurableWrite(disk.(txn := None), writes);
        return if written then Recovered(true) else PowerLoss;
      }
      if disk.account !in {t.base, Some(t.account)} {
        return Refused("account lineage conflict");
      }
      written, left := DurableWrite(disk.(account := Some(t.account)), writes);
      if !written {
        return PowerLoss;
      }
      assert Attempt(old(disk), writes) == Replay(disk, t, 2, left);
      written, left := PublishGeneration(t, left);
      if !written {
        return PowerLoss;
      }
      o := PublishIndexes(t, left);
    }
  }
}
