/** What the heartbeat verification establishes about the desk it accepts: the heads of its two hash chains
    commit to everything it verifies. */
module HeartbeatIntegrity {
  import opened Results
  import opened HeartbeatState
  import opened Heartbeat

  // ----- One generation -----

  /** The only generation that completes the record. */
  function GenerationFor(r: Record): Generation
  {
    Generation(Some(r.account), Some(r.provenance), Some(r), Some(r.event), Some(r.payload),
               Some(Completion(r.commit, r, r.account, r.provenance, r.event, r.payload, r.previous, r.root)))
  }

  /** The record repeats its own parts faithfully. */
  predicate SelfConsistent(r: Record)
  {
    && r.event.id == r.commit && r.event.heartbeat && r.event.base == r.base && r.event.account == r.account
    && r.event.root == r.root == HeartbeatRoot(r.commit, r.payload, r.account, r.provenance, r.previous)
  }

  /** A record is complete exactly when it is consistent in itself, its event is in a verified chain, and its
      generation is, artifact by artifact, the one the record describes. */
  lemma CompletionExactly(d: Disk, r: Record)
    ensures CompletionOk(d, r) <==>
      && Identity(r.payload) in d.gens && d.gens[Identity(r.payload)] == GenerationFor(r)
      && SelfConsistent(r) && ChainOk(d.events) && r.event in d.events
  {
    hide ChainOk, Identity;
  }

  // ----- The chain of account events -----

  /** Each event names the one before it and starts from the account that one left; times never fall, and no
      identifier occurs twice. */
  predicate IsChain(events: seq<Event>)
  {
    && (forall i | 0 <= i < |events| :: events[i].previous == if i == 0 then None else Some(events[i - 1]))
    && (forall i | 0 < i < |events| :: events[i].base == Some(events[i - 1].account))
    && (forall i, j | 0 <= i < j < |events| :: events[i].ts <= events[j].ts && events[i].id != events[j].id)
  }

  lemma ChainExactly(events: seq<Event>)
    ensures ChainOk(events) <==> IsChain(events)
  {
    if ChainOk(events) {
      VerifiedIsChain(events);
    }
    if IsChain(events) {
      forall i | 0 <= i < |events| ensures NextOk(events[..i], events[i]) && !HasId(events[..i], events[i].id) {
        NextInChain(events, i);
      }
    }
  }

  lemma NextInChain(events: seq<Event>, i: nat)
    requires IsChain(events) && i < |events|
    ensures NextOk(events[..i], events[i]) && !HasId(events[..i], events[i].id)
  {
    var before := events[..i];
    assert |before| == i && forall k | 0 <= k < i :: before[k] == events[k];
    if i > 0 {
      assert before[|before| - 1] == events[i - 1];
      assert events[i - 1].ts <= events[i].ts && events[i].base == Some(events[i - 1].account);
    }
    assert events[i].previous == if i == 0 then None else Some(events[i - 1]);
    assert Last(before) == if i == 0 then None else Some(events[i - 1]);
    assert before != [] ==> events[i].ts >= before[|before| - 1].ts;
    assert before != [] ==> events[i].base == Some(before[|before| - 1].account);
    assert NextOk(before, events[i]);
  }

  lemma VerifiedIsChain(events: seq<Event>)
    requires ChainOk(events)
    ensures IsChain(events)
  {
    forall i, j | 0 <= i < j < |events| ensures events[i].ts <= events[j].ts && events[i].id != events[j].id {
      ChainTimes(events, i, j);
      assert !HasId(events[..j], events[j].id);
      assert events[..j][i] == events[i];
    }
    forall i | 0 <= i < |events|
      ensures events[i].previous == if i == 0 then None else Some(events[i - 1])
      ensures i > 0 ==> events[i].base == Some(events[i - 1].account)
    {
      assert NextOk(events[..i], events[i]);
    }
  }

  lemma {:induction false} ChainTimes(events: seq<Event>, i: nat, j: nat)
    requires ChainOk(events) && i < j < |events|
    ensures events[i].ts <= events[j].ts
  {
    assert NextOk(events[..j], events[j]);
    if i < j - 1 {
      ChainTimes(events, i, j - 1);
    }
    hide HasId;
  }

  lemma LastOfChain(events: seq<Event>)
    requires ChainOk(events) && events != []
    ensures events[|events| - 1].previous == Last(events[..|events| - 1]) && ChainOk(events[..|events| - 1])
  {
    var front := events[..|events| - 1];
    forall i | 0 <= i < |front| ensures events[..i] == front[..i] {
    }
    hide HasId;
  }

  /** The latest account event commits to every earlier one. */
  lemma {:induction false} HeadDeterminesEvents(a: seq<Event>, b: seq<Event>)
    requires ChainOk(a) && ChainOk(b) && Last(a) == Last(b)
    ensures a == b
  {
    hide ChainOk;
    if a == [] {
    } else {
      LastOfChain(a);
      LastOfChain(b);
      HeadDeterminesEvents(a[..|a| - 1], b[..|b| - 1]);
      assert a == a[..|a| - 1] + [a[|a| - 1]] && b == b[..|b| - 1] + [b[|b| - 1]];
    }
  }

  // ----- The chain of heartbeats -----

  /** Every hashed row names the row before it, and no row without a hash follows one. */
  predicate Linked(os: seq<Row>)
  {
    forall i | 0 <= i < |os| ::
      if os[i].Mark? then os[i].record.previous == Last(os[..i]) else forall k | 0 <= k < i :: !os[k].Mark?
  }

  /** The hashed rows of the chain, in its order. */
  function Hashed(os: seq<Row>): seq<Record>
  {
    if os == [] then []
    else Hashed(os[..|os| - 1]) + if os[|os| - 1].Mark? then [os[|os| - 1].record] else []
  }

  lemma {:induction false} NothingHashed(os: seq<Row>)
    requires Linked(os) && (os != [] ==> !os[|os| - 1].Mark?)
    ensures Hashed(os) == []
  {
    if os == [] {
    } else {
      var front := os[..|os| - 1];
      LinkedFront(os);
      assert front != [] ==> front[|front| - 1] == os[|front| - 1];
      NothingHashed(front);
    }
  }

  lemma LinkedFront(os: seq<Row>)
    requires Linked(os) && os != []
    ensures Linked(os[..|os| - 1])
    ensures os[|os| - 1].Mark? ==> os[|os| - 1].record.previous == Last(os[..|os| - 1])
  {
    var front := os[..|os| - 1];
    forall i | 0 <= i < |front| ensures os[..i] == front[..i] {
    }
  }

  /** The latest heartbeat commits to every hashed one before it. */
  lemma {:induction false} HeadDeterminesHeartbeats(a: seq<Row>, b: seq<Row>)
    requires Linked(a) && Linked(b) && Last(a) == Last(b)
    ensures Hashed(a) == Hashed(b)
  {
    if a == [] || !a[|a| - 1].Mark? {
      NothingHashed(a);
      NothingHashed(b);
    } else {
      LinkedFront(a);
      LinkedFront(b);
      HeadDeterminesHeartbeats(a[..|a| - 1], b[..|b| - 1]);
    }
  }

  lemma VerifiedAt(d: Disk, i: nat)
    requires HistoryOk(d, None) && i < |Officials(d.rows)|
    ensures var os := Officials(d.rows);
      if os[i].Mark? then os[i].record.previous == Last(os[..i]) && CompletionOk(d, os[i].record)
      else forall k | 0 <= k < i :: !os[k].Mark?
  {
    hide CompletionOk, Officials;
    AllOfficial(d.rows);
    assert Chained(d, Officials(d.rows), i, None);
  }

  lemma VerifiedIsLinked(d: Disk)
    requires HistoryOk(d, None)
    ensures Linked(Officials(d.rows))
    ensures forall row | row in d.rows && row.Mark? :: CompletionOk(d, row.record)
  {
    hide CompletionOk, HistoryOk, Officials;
    var os := Officials(d.rows);
    forall i | 0 <= i < |os|
      ensures if os[i].Mark? then os[i].record.previous == Last(os[..i]) && CompletionOk(d, os[i].record)
              else forall k | 0 <= k < i :: !os[k].Mark?
    {
      VerifiedAt(d, i);
    }
    forall row | row in d.rows && row.Mark? ensures CompletionOk(d, row.record) {
      assert multiset(os)[row] == multiset(d.rows)[row];
      assert row in multiset(d.rows);
      assert row in multiset(os);
    }
  }

  /** Account events and their generations correspond one to one: every heartbeat event is that of exactly one
      ledger row, which is complete, and every hashed row is that of such an event; every reconcile event has a
      generation with its account, and there is no other. */
  ghost predicate Corresponds(d: Disk)
  {
    && IsChain(d.events)
    && (forall e | e in d.events && e.heartbeat ::
          exists row | row in d.rows && row.Mark? :: row.record.event == e && row.record.account == e.account)
    && (forall row | row in d.rows && row.Mark? ::
          && row.record.event in d.events && row.record.event.id == row.record.commit
          && row.record.event.heartbeat && row.record.event.account == row.record.account
          && CompletionOk(d, row.record) && multiset(d.rows)[row] == 1)
    && (forall a, b | a in d.rows && b in d.rows && a.Mark? && b.Mark? :: a.record.commit == b.record.commit ==> a == b)
    && (forall e | e in d.events && !e.heartbeat :: e.id in d.reconciles && d.reconciles[e.id] == e.account)
    && (forall id | id in d.reconciles :: exists e | e in d.events :: e.id == id && !e.heartbeat)
  }

  /** With nothing pending, verification of the account events establishes exactly that. */
  lemma EventsCorrespond(d: Disk)
    ensures ReferencesOk(d, None) <==> Corresponds(d)
  {
    ChainExactly(d.events);
    if ReferencesOk(d, None) {
      VerifiedCorresponds(d);
    }
    if Corresponds(d) {
      CorrespondsVerifies(d);
    }
  }

  lemma VerifiedCorresponds(d: Disk)
    requires ReferencesOk(d, None)
    ensures Corresponds(d)
  {
    ChainExactly(d.events);
    forall e | e in d.events && e.heartbeat
      ensures exists row | row in d.rows && row.Mark? :: row.record.event == e && row.record.account == e.account
    {
      OneRow(d, e);
    }
    forall e | e in d.events && !e.heartbeat ensures e.id in d.reconciles && d.reconciles[e.id] == e.account {
      var i :| 0 <= i < |d.events| && d.events[i] == e;
      assert EventOk(d, None, i);
    }
    forall row | row in d.rows && row.Mark?
      ensures row.record.event in d.events && row.record.event.id == row.record.commit
      ensures row.record.event.heartbeat && row.record.event.account == row.record.account
      ensures CompletionOk(d, row.record) && multiset(d.rows)[row] == 1
    {
      RowHasItsEvent(d, row);
    }
    forall a, b | a in d.rows && b in d.rows && a.Mark? && b.Mark? && a.record.commit == b.record.commit
      ensures a == b
    {
      OneCommitOneRow(d, a, b);
    }
    hide ChainOk, IsChain, EventOk, DeclaredOnce, CompletionOk;
    forall id | id in d.reconciles ensures exists e | e in d.events :: e.id == id && !e.heartbeat {
      assert Declared(d.events, None, id, false);
    }
  }

  lemma OneCommitOneRow(d: Disk, a: Row, b: Row)
    requires ReferencesOk(d, None) && a in d.rows && b in d.rows && a.Mark? && b.Mark?
    requires a.record.commit == b.record.commit
    ensures a == b
  {
    hide ChainOk, EventOk, Declared, CompletionOk;
    assert a in multiset(d.rows) && b in multiset(d.rows);
    assert DeclaredOnce(multiset(d.rows), a.record.commit);
    assert Declares(a, a.record.commit) && Declares(b, a.record.commit);
  }

  lemma CorrespondsVerifies(d: Disk)
    requires Corresponds(d)
    ensures ReferencesOk(d, None)
  {
    ChainExactly(d.events);
    hide ChainOk, CompletionOk;
    forall row | row in multiset(d.rows) && row.Mark?
      ensures Declared(d.events, None, row.record.commit, true) && DeclaredOnce(multiset(d.rows), row.record.commit)
           && row.record.commit !in d.reconciles
    {
      assert row in d.rows;
      assert row.record.event in d.events;
      RowIsDeclared(d, row);
    }
    forall id | id in d.reconciles ensures Declared(d.events, None, id, false) {
      var e :| e in d.events && e.id == id && !e.heartbeat;
    }
    forall i | 0 <= i < |d.events| ensures EventOk(d, None, i) {
      EventIsOk(d, i);
    }
  }

  lemma RowIsDeclared(d: Disk, row: Row)
    requires Corresponds(d) && row in d.rows && row.Mark?
    ensures DeclaredOnce(multiset(d.rows), row.record.commit) && row.record.commit !in d.reconciles
  {
    hide CompletionOk;
    assert row in multiset(d.rows) && Declares(row, row.record.commit);
    if row.record.commit in d.reconciles {
      var e :| e in d.events && e.id == row.record.commit && !e.heartbeat;
      OneEventPerId(d.events, e, row.record.event);
      assert false;
    }
  }

  lemma OneEventPerId(events: seq<Event>, a: Event, b: Event)
    requires IsChain(events) && a in events && b in events && a.id == b.id
    ensures a == b
  {
    var i :| 0 <= i < |events| && events[i] == a;
    var j :| 0 <= j < |events| && events[j] == b;
  }

  lemma EventIsOk(d: Disk, i: nat)
    requires Corresponds(d) && i < |d.events|
    ensures EventOk(d, None, i)
  {
    hide CompletionOk;
    var e := d.events[i];
    if e.heartbeat {
      var own :| own in d.rows && own.Mark? && own.record.event == e && own.record.account == e.account;
      RowIsDeclared(d, own);
      forall row | row in multiset(d.rows) && Declares(row, e.id)
        ensures Bound(row.record, e) && CompletionOk(d, row.record)
      {
        assert row in d.rows;
        OneEventPerId(d.events, row.record.event, e);
      }
    }
  }

  lemma OneRow(d: Disk, e: Event)
    requires ReferencesOk(d, None) && e in d.events && e.heartbeat
    ensures exists row | row in d.rows && row.Mark? && row.record.event == e && row.record.account == e.account ::
      forall other | other in d.rows && other.Mark? && other.record.commit == e.id :: other == row
  {
    var i :| 0 <= i < |d.events| && d.events[i] == e;
    assert EventOk(d, None, i);
    hide ReferencesOk, CompletionOk;
    var row :| row in multiset(d.rows) && Declares(row, e.id) && multiset(d.rows)[row] == 1;
    assert Bound(row.record, e);
    forall other | other in d.rows && other.Mark? && other.record.commit == e.id ensures other == row {
      assert other in multiset(d.rows) && Declares(other, e.id);
    }
    assert row in d.rows;
  }

  lemma RowHasItsEvent(d: Disk, row: Row)
    requires ReferencesOk(d, None) && row in d.rows && row.Mark?
    ensures row.record.event in d.events && row.record.event.id == row.record.commit
    ensures row.record.event.heartbeat && row.record.event.account == row.record.account
    ensures CompletionOk(d, row.record) && multiset(d.rows)[row] == 1
  {
    assert DeclaredOnce(multiset(d.rows), row.record.commit) by {
      hide CompletionOk, ChainOk, EventOk;
      assert row in multiset(d.rows);
    }
    assert multiset(d.rows)[row] == 1 by {
      hide ReferencesOk;
      assert row in multiset(d.rows) && Declares(row, row.record.commit);
    }
    hide CompletionOk, DeclaredOnce, ChainOk;
    assert row in multiset(d.rows);
    assert Declared(d.events, None, row.record.commit, true);
    var e :| e in d.events && e.id == row.record.commit && e.heartbeat;
    var i :| 0 <= i < |d.events| && d.events[i] == e;
    assert EventOk(d, None, i);
    hide ReferencesOk;
    assert Bound(row.record, e);
  }

  // ----- What the two heads commit to -----

  /** A desk in which history and events verify with nothing pending. */
  predicate Verified(d: Disk)
  {
    HistoryOk(d, None) && ReferencesOk(d, None)
  }

  lemma {:induction false} HashedFromRows(os: seq<Row>, r: Record)
    ensures r in Hashed(os) <==> Mark(r) in os
  {
    if os == [] {
    } else {
      HashedFromRows(os[..|os| - 1], r);
      assert os == os[..|os| - 1] + [os[|os| - 1]];
    }
  }

  /** The head of the heartbeat chain and the head of the event chain determine everything verification
      covers: all hashed heartbeats in order, the whole generation of each, all account events, and the account
      of every reconcile generation.  No artifact of a verified desk can be altered, dropped or added without
      verification failing or a head changing. */
  lemma HeadsDetermineTheDesk(d: Disk, e: Disk)
    requires Verified(d) && Verified(e)
    requires Last(Officials(d.rows)) == Last(Officials(e.rows)) && Last(d.events) == Last(e.events)
    ensures Hashed(Officials(d.rows)) == Hashed(Officials(e.rows))
    ensures forall r | Mark(r) in d.rows :: Mark(r) in e.rows
    ensures forall r | Mark(r) in d.rows ::
      && Identity(r.payload) in d.gens && Identity(r.payload) in e.gens
      && d.gens[Identity(r.payload)] == e.gens[Identity(r.payload)]
    ensures d.events == e.events && d.reconciles == e.reconciles
  {
    hide HistoryOk, Officials, ChainOk, EventOk, Declared, CompletionOk, Identity, Hashed, Linked;
    VerifiedIsLinked(d);
    VerifiedIsLinked(e);
    HeadDeterminesHeartbeats(Officials(d.rows), Officials(e.rows));
    HeadDeterminesEvents(d.events, e.events);
    hide Last;
    VerifiedCorresponds(d);
    VerifiedCorresponds(e);
    hide ReferencesOk;
    SameReconciles(d, e);
    forall r | Mark(r) in d.rows
      ensures Mark(r) in e.rows && Identity(r.payload) in d.gens && Identity(r.payload) in e.gens
           && d.gens[Identity(r.payload)] == e.gens[Identity(r.payload)]
    {
      OnTheChain(d, r);
      OnTheChain(e, r);
      CompletionExactly(d, r);
      CompletionExactly(e, r);
    }
  }

  lemma OnTheChain(d: Disk, r: Record)
    ensures Mark(r) in d.rows <==> r in Hashed(Officials(d.rows))
  {
    HashedFromRows(Officials(d.rows), r);
    assert multiset(Officials(d.rows))[Mark(r)] == multiset(d.rows)[Mark(r)];
    assert Mark(r) in d.rows <==> Mark(r) in multiset(d.rows);
    assert Mark(r) in Officials(d.rows) <==> Mark(r) in multiset(Officials(d.rows));
    hide Officials, Hashed;
  }

  lemma SameReconciles(d: Disk, e: Disk)
    requires d.events == e.events
    requires forall x | x in d.events && !x.heartbeat :: x.id in d.reconciles && d.reconciles[x.id] == x.account
    requires forall x | x in e.events && !x.heartbeat :: x.id in e.reconciles && e.reconciles[x.id] == x.account
    requires forall id | id in d.reconciles :: exists x | x in d.events :: x.id == id && !x.heartbeat
    requires forall id | id in e.reconciles :: exists x | x in e.events :: x.id == id && !x.heartbeat
    ensures d.reconciles == e.reconciles
  {
  }

  // ----- The intent -----

  /** An intent is bound to its record: under the same record and base there is no other whose parts agree. */
  lemma RecordDeterminesIntent(t: Txn, u: Txn)
    requires Intact(t) && Intact(u) && t.record == u.record && t.base == u.base
    ensures t == u && t.event.base == t.record.base && t.event.account == t.account == t.record.account
  {
  }

  /** Recovery refuses an intent any part of which was altered beside its record, and touches nothing. */
  lemma AlteredIntentIsRefused(d: Disk, t: Txn, u: Txn, writes: nat)
    requires Intact(t) && d.txn == Some(u) && u != t && u.record == t.record && u.base == t.base
    ensures Attempt(d, writes).0 == d && Attempt(d, writes).1.Refused?
  {
    if Intact(u) {
      RecordDeterminesIntent(t, u);
    }
    hide Intact, HistoryOk, ReferencesOk, CompletionOk, Replay;
  }
}
