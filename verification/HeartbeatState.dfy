/** The durable state behind the heartbeat protocol and the checks the code makes of it.

    A SHA-256 is modelled by the value it digests, so a record that names its predecessor's hash holds the
    predecessor itself, and equal hashes are equal values.  Times and schedule slots are integers. */
module HeartbeatState {
  import opened Results
  import opened Sorting

  /** The canonical text of an artifact. */
  type Json = string

  datatype Payload = Payload(ts: int, slot: Option<int>, body: Json)

  /** A line of the portfolio ledger: a bare observation of another kind, an official heartbeat from before
      the hash chain, or a hashed heartbeat. */
  datatype Row = Observation(at: int, kind: int) | Legacy(payload: Payload) | Mark(record: Record)

  datatype Record = Record(payload: Payload, commit: nat, previous: Option<Row>, account: Json, provenance: Json,
                           event: Event, base: Option<Json>, root: Root)

  datatype Root =
    | HeartbeatRoot(commit: nat, payload: Payload, account: Json, provenance: Json, previous: Option<Row>)
    | ReconcileRoot(text: Json)

  /** One account transition; a heartbeat or a reconcile. */
  datatype Event = Event(id: nat, heartbeat: bool, ts: int, previous: Option<Event>, base: Option<Json>,
                         account: Json, root: Root)

  datatype Completion = Completion(commit: nat, heartbeat: Record, account: Json, provenance: Json, event: Event,
                                   payload: Payload, previous: Option<Row>, root: Root)

  datatype Generation = Generation(account: Option<Json>, provenance: Option<Json>, heartbeat: Option<Record>,
                                   event: Option<Event>, payload: Option<Payload>, complete: Option<Completion>)

  const NO_GENERATION := Generation(None, None, None, None, None, None)

  /** The write-ahead intent. */
  datatype Txn = Txn(commit: nat, base: Option<Json>, account: Json, record: Record, payload: Payload,
                     provenance: Json, event: Event, root: Root)

  /** `reconciles` holds, for each intact reconcile generation, the account state its event declares. */
  datatype Disk = Disk(account: Option<Json>, txn: Option<Txn>, reconcilePending: bool, rows: seq<Row>,
                       events: seq<Event>, gens: map<int, Generation>, reconciles: map<nat, Json>)

  // ----- Ledger rows -----

  const OFFICIAL: int := 0

  predicate Official(row: Row)
  {
    !row.Observation?
  }

  function PayloadOf(row: Row): Payload
    requires Official(row)
  {
    if row.Mark? then row.record.payload else row.payload
  }

  function Identity(p: Payload): int
  {
    if p.slot.Some? then p.slot.value else p.ts
  }

  function RowIdentity(row: Row): int
    requires Official(row)
  {
    Identity(PayloadOf(row))
  }

  predicate Earlier(a: (int, int), b: (int, int))
  {
    a.0 < b.0 || (a.0 == b.0 && a.1 < b.1)
  }

  function ChainKey(p: Payload): (int, int)
  {
    (p.ts, Identity(p))
  }

  /** The order of the official chain: by time, then by identity. */
  predicate RowBefore(a: Row, b: Row)
  {
    Earlier(if Official(a) then ChainKey(PayloadOf(a)) else (a.at, a.kind),
            if Official(b) then ChainKey(PayloadOf(b)) else (b.at, b.kind))
  }

  function OfficialOnly(rows: seq<Row>): (r: seq<Row>)
    ensures forall row :: multiset(r)[row] == if Official(row) then multiset(rows)[row] else 0
  {
    if rows == [] then []
    else
      assert rows == rows[..|rows| - 1] + [rows[|rows| - 1]];
      OfficialOnly(rows[..|rows| - 1]) + if Official(rows[|rows| - 1]) then [rows[|rows| - 1]] else []
  }

  /** The official rows in the order of the chain. */
  function Officials(rows: seq<Row>): (r: seq<Row>)
    ensures forall row :: multiset(r)[row] == if Official(row) then multiset(rows)[row] else 0
  {
    Sort(RowBefore, OfficialOnly(rows))
  }

  /** The order of the ledger file: by time, then by kind. */
  predicate FileBefore(a: Row, b: Row)
  {
    Earlier(if Official(a) then (PayloadOf(a).ts, OFFICIAL) else (a.at, a.kind),
            if Official(b) then (PayloadOf(b).ts, OFFICIAL) else (b.at, b.kind))
  }

  function FileOrder(rows: seq<Row>): (r: seq<Row>)
    ensures multiset(r) == multiset(rows)
  {
    Sort(FileBefore, rows)
  }

  function Last<T>(s: seq<T>): Option<T>
  {
    if s == [] then None else Some(s[|s| - 1])
  }

  // ----- Checks -----

  predicate NextOk(events: seq<Event>, e: Event)
  {
    && e.previous == Last(events)
    && (events != [] ==> e.ts >= events[|events| - 1].ts && e.base == Some(events[|events| - 1].account))
  }

  predicate HasId(events: seq<Event>, id: nat)
  {
    exists i :: 0 <= i < |events| && events[i].id == id
  }

  /** The account events form one chain. */
  predicate ChainOk(events: seq<Event>)
  {
    forall i | 0 <= i < |events| :: NextOk(events[..i], events[i]) && !HasId(events[..i], events[i].id)
  }

  /** Every artifact of the record's generation is present and bound by its completion marker. */
  predicate CompletionOk(d: Disk, r: Record)
  {
    Identity(r.payload) in d.gens &&
    var g := d.gens[Identity(r.payload)];
    && g.heartbeat.Some? && g.account.Some? && g.provenance.Some? && g.complete.Some? && g.event.Some?
        && g.payload.Some?
    && var c, e := g.complete.value, g.event.value;
    && c.commit == r.commit && g.heartbeat.value == r && c.heartbeat == r
    && c.account == g.account.value == r.account && c.provenance == g.provenance.value == r.provenance
    && c.previous == r.previous
    && ChainOk(d.events) && e in d.events && e.heartbeat && e.id == r.commit
    && e == r.event == c.event && e.base == r.base && e.account == r.account
    && g.payload.value == r.payload == c.payload
    && c.root == r.root == e.root == HeartbeatRoot(r.commit, r.payload, r.account, r.provenance, r.previous)
  }

  predicate Chained(d: Disk, os: seq<Row>, i: nat, allow: Option<Record>)
    requires i < |os| && forall k | 0 <= k < |os| :: Official(os[k])
  {
    if os[i].Mark? then
      && os[i].record.previous == Last(os[..i])
      && (if allow.Some? && os[i].record.commit == allow.value.commit
          then os[i].record == allow.value && i == |os| - 1
          else CompletionOk(d, os[i].record))
    else
      forall k | 0 <= k < i :: !os[k].Mark?
  }

  /** The whole official history verifies; at most the exact last row may lack its completion. */
  predicate HistoryOk(d: Disk, allow: Option<Record>)
  {
    var os := Officials(d.rows);
    AllOfficial(d.rows);
    && (forall i, j | 0 <= i < j < |os| :: RowIdentity(os[i]) != RowIdentity(os[j]))
    && forall i | 0 <= i < |os| :: Chained(d, os, i, allow)
  }

  lemma AllOfficial(rows: seq<Row>)
    ensures forall k | 0 <= k < |Officials(rows)| :: Official(Officials(rows)[k])
  {
    var os := Officials(rows);
    forall k | 0 <= k < |os| ensures Official(os[k]) {
      assert os[k] in multiset(os);
    }
  }

  predicate Declares(row: Row, id: nat)
  {
    row.Mark? && row.record.commit == id
  }

  /** Exactly one ledger row declares the event. */
  predicate DeclaredOnce(rows: multiset<Row>, id: nat)
  {
    && (exists row | row in rows :: Declares(row, id) && rows[row] == 1)
    && (forall a, b | a in rows && b in rows && Declares(a, id) && Declares(b, id) :: a == b)
  }

  predicate Declared(events: seq<Event>, pending: Option<Event>, id: nat, heartbeat: bool)
  {
    (exists e | e in events :: e.id == id && e.heartbeat == heartbeat)
    || (!HasId(events, id) && pending.Some? && pending.value.id == id && pending.value.heartbeat == heartbeat)
  }

  predicate Bound(r: Record, e: Event)
  {
    r.account == e.account && r.event == e
  }

  /** The event has one intact generation declaring it. */
  predicate EventOk(d: Disk, pending: Option<Event>, i: nat)
    requires i < |d.events|
  {
    var e := d.events[i];
    var isPending := pending.Some? && pending.value.id == e.id;
    && (isPending ==> e == pending.value && i == |d.events| - 1)
    && if e.heartbeat then
         DeclaredOnce(multiset(d.rows), e.id)
         && forall row | row in multiset(d.rows) && Declares(row, e.id) ::
              Bound(row.record, e) && (CompletionOk(d, row.record) || isPending)
       else
         isPending || (e.id in d.reconciles && d.reconciles[e.id] == e.account)
  }

  /** Every account event resolves to one intact generation and every generation to its event; at most
      the exact last event may still be pending. */
  predicate ReferencesOk(d: Disk, pending: Option<Event>)
  {
    && ChainOk(d.events)
    && (pending.Some? ==> if HasId(d.events, pending.value.id)
                          then Last(d.events) == pending
                          else NextOk(d.events, pending.value))
    && (forall id | id in d.reconciles :: Declared(d.events, pending, id, false))
    && (forall row | row in multiset(d.rows) && row.Mark? ::
          var id := row.record.commit;
          Declared(d.events, pending, id, true) && DeclaredOnce(multiset(d.rows), id) && id !in d.reconciles)
    && (forall i | 0 <= i < |d.events| :: EventOk(d, pending, i))
  }
}
