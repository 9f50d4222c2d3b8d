/** The lifecycle of a one-shot directive as a transition system over a small durable disk.

    Three directories matter: the inbox (one name), the claim root (the active intent and the payload
    names of its claim) and the acknowledgements.  Each has a view, what the operating system shows, and
    a disk, what a power loss would leave.  Flushing a directory makes its view durable, whether the
    code asks for it or the kernel does it in the background; the removal half of a rename between
    directories is never durable before its addition half.  Every action below is one such step; the
    imperative code in DirectiveLifecycle.dfy takes no other. */
module Directives {
  import opened Results

  type Ino = nat

  datatype Intent = Intent(id: nat, cycle: int, ino: Ino)

  /** A payload name in the claim root carries the id of the claim it belongs to. */
  datatype Entry = Entry(id: nat, ino: Ino)

  datatype Root = Root(active: Option<Intent>, claim: Option<Entry>, dup: Option<Entry>, tomb: Option<Entry>)

  datatype Fs = Fs(inbox: Option<Ino>, root: Root, acks: map<int, nat>)

  /** Which directory may not be flushed yet, because it lost a name another directory gained. */
  datatype Fence = NoFence | InboxFenced | RootFenced

  /** `receipts` is the durable completion manifest: for each completed cycle, the claim its receipt
      binds, if any.  `withdrawn` collects inodes whose inbox name their own producer overwrote;
      `candidate` is the inode the running claim has made durable in the inbox. */
  datatype State = State(view: Fs, disk: Fs, fence: Fence, inboxDirty: bool, synced: set<Ino>,
                         withdrawn: set<Ino>, candidate: Option<Ino>, receipts: map<int, Option<Intent>>,
                         born: Ino, nextId: nat)

  const EMPTY_ROOT := Root(None, None, None, None)

  function Start(): State
  {
    var fs := Fs(None, EMPTY_ROOT, map[]);
    State(fs, fs, NoFence, false, {}, {}, None, map[], 0, 0)
  }

  datatype Action =
    // the producer, the kernel and the power supply
    | Enqueue | FlushInbox | FlushRoot | FlushAcks | Crash
    // claiming
    | SyncSource | Prepare | WriteActive(cycle: int) | TakeSource | PutBack | Cancel
    // retiring a crash-restored second name
    | Quarantine | Unquarantine | DropDuplicate
    // completing and cleaning up
    | Complete(cycle: int) | Bind | Entomb | DropTomb | Acknowledge | DropActive

  function InoAt(e: Option<Entry>): Option<Ino>
  {
    if e.Some? then Some(e.value.ino) else None
  }

  function NoFiles(r: Root): bool
  {
    r.claim.None? && r.dup.None? && r.tomb.None?
  }

  predicate Receipted(s: State, it: Intent)
  {
    it.cycle in s.receipts && s.receipts[it.cycle] == Some(it)
  }

  /** Nothing the code does to the claim root overlaps an unfinished rename. */
  predicate Settled(s: State)
  {
    s.fence.NoFence? && !s.inboxDirty && s.view.root == s.disk.root
  }

  /** What the code has established before it takes each step.  Conditions on the view are the checks it
      makes; conditions on the disk are what its own earlier fsyncs guarantee. */
  predicate Enabled(s: State, a: Action)
  {
    var v, d := s.view, s.disk;
    match a
    case Enqueue => true
    case FlushInbox => !s.fence.InboxFenced?
    case FlushRoot => !s.fence.RootFenced?
    case FlushAcks => true
    case Crash => true
    case SyncSource => v.inbox.Some?
    case Prepare =>
      v.inbox.Some? && v.inbox == d.inbox && v.inbox.value in s.synced && Settled(s) && v.root == EMPTY_ROOT
    case WriteActive(cycle) =>
      s.candidate.Some? && Settled(s) && v.root == EMPTY_ROOT && cycle !in s.receipts
    case TakeSource =>
      Settled(s) && v.root.active.Some? && NoFiles(v.root) && v.inbox.Some? && !Receipted(s, v.root.active.value)
    case PutBack =>
      Settled(s) && v.root.active.Some? && v.inbox.None? && v.root.claim.Some? && v.root.dup.None?
      && v.root.claim.value.ino != v.root.active.value.ino
    case Cancel =>
      Settled(s) && v.root.active.Some? && NoFiles(v.root) && !Receipted(s, v.root.active.value)
      && v.root.active.value.ino in s.withdrawn
    case Quarantine =>
      Settled(s) && v.root.active.Some? && v.inbox.Some? && v.root.dup.None? && v.root.tomb.None?
      && InoAt(v.root.claim) == Some(v.root.active.value.ino)
    case Unquarantine =>
      Settled(s) && v.root.active.Some? && v.inbox.None? && v.root.dup.Some?
      && v.root.dup.value.ino != v.root.active.value.ino
    case DropDuplicate =>
      Settled(s) && v.root.active.Some? && v.root.dup.Some? && v.root.dup.value.ino == v.root.active.value.ino
    case Complete(cycle) => Settled(s) && cycle !in s.receipts && v.root.active.None?
    case Bind =>
      Settled(s) && v.root.active.Some? && v.root.dup.None? && v.root.tomb.None?
      && InoAt(v.root.claim) == Some(v.root.active.value.ino) && v.root.active.value.cycle !in s.receipts
    case Entomb =>
      Settled(s) && v.root.active.Some? && Receipted(s, v.root.active.value) && v.root.dup.None? && v.root.tomb.None?
      && InoAt(v.root.claim) == Some(v.root.active.value.ino) && v.inbox != Some(v.root.active.value.ino)
    case DropTomb =>
      Settled(s) && v.root.active.Some? && Receipted(s, v.root.active.value)
      && InoAt(v.root.tomb) == Some(v.root.active.value.ino)
    case Acknowledge =>
      Settled(s) && v.root.active.Some? && Receipted(s, v.root.active.value) && NoFiles(v.root)
    case DropActive =>
      Settled(s) && v.root.active.Some? && Receipted(s, v.root.active.value) && NoFiles(v.root)
      && v.root.active.value.cycle in d.acks
  }

  function WithRoot(s: State, root: Root): State
  {
    s.(view := s.view.(root := root))
  }

  /** A rename out of the inbox into the claim root, before either directory is flushed. */
  function MovedIn(s: State, root: Root): State
  {
    s.(view := s.view.(inbox := None, root := root), fence := InboxFenced, inboxDirty := true)
  }

  /** A rename out of the claim root back into the empty inbox. */
  function MovedOut(s: State, root: Root, ino: Ino): State
  {
    s.(view := s.view.(inbox := Some(ino), root := root), fence := RootFenced)
  }

  function Names(fs: Fs): set<Ino>
  {
    (if fs.inbox.Some? then {fs.inbox.value} else {}) + Payloads(fs.root)
  }

  function Payloads(r: Root): set<Ino>
  {
    (if r.claim.Some? then {r.claim.value.ino} else {}) + (if r.dup.Some? then {r.dup.value.ino} else {})
    + (if r.tomb.Some? then {r.tomb.value.ino} else {})
  }

  function Step(s: State, a: Action): State
    requires Enabled(s, a)
  {
    var v, root := s.view, s.view.root;
    match a
    case Enqueue =>
      s.(view := v.(inbox := Some(s.born)), born := s.born + 1,
         withdrawn := if v.inbox.Some? then s.withdrawn + {v.inbox.value} else s.withdrawn)
    case FlushInbox =>
      s.(disk := s.disk.(inbox := v.inbox), inboxDirty := false,
         fence := if s.fence.RootFenced? then NoFence else s.fence)
    case FlushRoot =>
      s.(disk := s.disk.(root := root), fence := if s.fence.InboxFenced? then NoFence else s.fence)
    case FlushAcks => s.(disk := s.disk.(acks := v.acks))
    case Crash =>
      s.(view := s.disk, fence := NoFence, inboxDirty := false, candidate := None,
         withdrawn := s.withdrawn - Names(s.disk))
    case SyncSource => s.(synced := s.synced + {v.inbox.value})
    case Prepare => s.(candidate := v.inbox)
    case WriteActive(cycle) =>
      WithRoot(s, root.(active := Some(Intent(s.nextId, cycle, s.candidate.value))))
        .(candidate := None, nextId := s.nextId + 1)
    case TakeSource => MovedIn(s, root.(claim := Some(Entry(root.active.value.id, v.inbox.value))))
    case PutBack => MovedOut(s, root.(claim := None), root.claim.value.ino)
    case Cancel => WithRoot(s, root.(active := None))
    case Quarantine => MovedIn(s, root.(dup := Some(Entry(root.active.value.id, v.inbox.value))))
    case Unquarantine => MovedOut(s, root.(dup := None), root.dup.value.ino)
    case DropDuplicate => WithRoot(s, root.(dup := None))
    case Complete(cycle) => s.(receipts := s.receipts[cycle := None])
    case Bind => s.(receipts := s.receipts[root.active.value.cycle := root.active])
    case Entomb => WithRoot(s, root.(claim := None, tomb := root.claim))
    case DropTomb => WithRoot(s, root.(tomb := None))
    case Acknowledge => s.(view := v.(acks := v.acks[root.active.value.cycle := root.active.value.id]))
    case DropActive => WithRoot(s, root.(active := None))
  }

  // ----- What every step keeps -----

  /** The payload names of one snapshot of the claim root: they belong to the active claim, a quarantine
      only stands beside the genuine claim, and a tombstone only stands alone. */
  predicate RootShape(s: State, r: Root)
  {
    && (NoFiles(r) || r.active.Some?)
    && (r.active.Some? ==>
          var it := r.active.value;
          && (r.claim.Some? ==> r.claim.value.id == it.id)
          && (r.dup.Some? ==> r.dup.value.id == it.id && InoAt(r.claim) == Some(it.ino))
          && (r.tomb.Some? ==>
                r.tomb.value == Entry(it.id, it.ino) && r.claim.None? && r.dup.None? && Receipted(s, it)))
  }

  /** An active claim's payload is under a durable name, its bytes are durable, or its producer withdrew
      it; once its receipt is bound the obligation ends. */
  predicate PayloadKept(s: State, active: Option<Intent>)
  {
    active.Some? && !Receipted(s, active.value) ==>
      active.value.ino in s.synced && (active.value.ino in Names(s.disk) || active.value.ino in s.withdrawn)
  }

  /** A durable inbox name the view no longer has: overwritten by the producer, or just renamed into the
      claim root, where it is durable before the inbox may be flushed. */
  predicate InboxKept(s: State)
  {
    var j := s.disk.inbox;
    j.Some? && s.view.inbox != j && j.value !in s.withdrawn ==>
      s.inboxDirty && j.value in Payloads(s.view.root)
      && (s.fence.InboxFenced? || j.value in Payloads(s.disk.root))
  }

  predicate Released(s: State, j: Ino)
  {
    s.disk.root.active.Some? && Receipted(s, s.disk.root.active.value) && s.disk.root.active.value.ino == j
  }

  /** A durable payload name the view no longer has: put back into the inbox, or released by its receipt. */
  predicate PayloadsKept(s: State)
  {
    forall j | j in Payloads(s.disk.root) && j !in Payloads(s.view.root) && j !in s.withdrawn && !Released(s, j) ::
      s.view.inbox == Some(j) && (s.fence.RootFenced? || s.disk.inbox == Some(j))
  }

  /** A claim name holding another inode: the intent's own payload was overwritten in the inbox, or came
      back there after a crash. */
  predicate MismatchExplained(s: State, fs: Fs)
  {
    fs.root.active.Some? && fs.root.claim.Some? && fs.root.claim.value.ino != fs.root.active.value.ino ==>
      fs.root.active.value.ino in s.withdrawn || s.disk.inbox == Some(fs.root.active.value.ino)
  }

  /** A bound receipt is durably acknowledged or still active on disk; an acknowledgement names its
      receipt's claim. */
  predicate CycleKept(s: State, c: int)
  {
    var bound := c in s.receipts && s.receipts[c].Some?;
    && (bound ==> s.receipts[c].value.cycle == c)
    && (bound ==> (c in s.disk.acks && c in s.view.acks)
                  || (s.disk.root.active == s.receipts[c] && s.view.root.active == s.receipts[c]))
    && (c in s.view.acks ==> bound && s.view.acks[c] == s.receipts[c].value.id)
    && (c in s.disk.acks ==> c in s.view.acks && s.disk.acks[c] == s.view.acks[c])
  }

  ghost predicate Acknowledged(s: State)
  {
    forall c :: CycleKept(s, c)
  }

  predicate Born(s: State, j: Option<Ino>)
  {
    j.Some? ==> j.value < s.born
  }

  predicate BornBefore(s: State, fs: Fs)
  {
    && Born(s, fs.inbox) && Born(s, InoAt(fs.root.claim)) && Born(s, InoAt(fs.root.dup)) && Born(s, InoAt(fs.root.tomb))
    && (fs.root.active.Some? ==> fs.root.active.value.ino < s.born && fs.root.active.value.id < s.nextId)
  }

  /** A cycle with an active claim completes only by binding that claim. */
  predicate CycleFree(s: State, active: Option<Intent>)
  {
    active.Some? ==> active.value.cycle !in s.receipts || Receipted(s, active.value)
  }

  predicate Rooted(s: State, r: Root)
  {
    RootShape(s, r) && CycleFree(s, r.active)
  }

  /** An unfinished rename is the only thing pending, and the two snapshots never show two different
      claims. */
  predicate Fenced(s: State)
  {
    var v, d := s.view, s.disk;
    && (v.root.active.Some? && d.root.active.Some? ==> v.root.active == d.root.active)
    && (s.fence.InboxFenced? ==> s.inboxDirty)
    && (s.fence.RootFenced? ==> !s.inboxDirty && d.root.active == v.root.active)
    && (s.inboxDirty ==> v.root.active.Some? && d.root.active == v.root.active)
    && (s.inboxDirty && !s.fence.InboxFenced? ==> v.root == d.root)
    && (s.fence.NoFence? && v.root.active.None? && d.root.active.Some? ==> NoFiles(d.root))
  }

  predicate Shaped(s: State)
  {
    && Rooted(s, s.view.root) && Rooted(s, s.disk.root)
    && BornBefore(s, s.view) && BornBefore(s, s.disk)
    && Fenced(s)
  }

  /** What the running claim knows between its directory barrier and publishing the intent. */
  predicate CandidateKept(s: State)
  {
    s.candidate.Some? ==>
      && s.view.root == s.disk.root == EMPTY_ROOT && s.fence.NoFence? && !s.inboxDirty
      && s.candidate.value in s.synced && s.candidate.value < s.born
      && (s.disk.inbox == s.candidate || s.candidate.value in s.withdrawn)
  }

  predicate ClaimsKept(s: State)
  {
    && PayloadKept(s, s.view.root.active) && PayloadKept(s, s.disk.root.active)
    && MismatchExplained(s, s.view) && MismatchExplained(s, s.disk)
    && CandidateKept(s)
  }

  predicate NamesKept(s: State)
  {
    InboxKept(s) && PayloadsKept(s)
  }

  predicate Core(s: State)
  {
    Shaped(s) && ClaimsKept(s) && NamesKept(s)
  }

  ghost predicate Inv(s: State)
  {
    Core(s) && Acknowledged(s)
  }

  lemma StartKeeps()
    ensures Inv(Start())
  {
  }

  lemma StepAcknowledges(s: State, a: Action)
    requires Inv(s) && Enabled(s, a)
    ensures Acknowledged(Step(s, a))
  {
    hide RootShape, PayloadKept, InboxKept, PayloadsKept, MismatchExplained;
    forall c ensures CycleKept(Step(s, a), c) {
      assert CycleKept(s, c);
    }
  }

  lemma StepKeepsRooted(s: State, a: Action)
    requires Core(s) && Enabled(s, a)
    ensures Rooted(Step(s, a), Step(s, a).view.root) && Rooted(Step(s, a), Step(s, a).disk.root)
  {
    hide NamesKept, ClaimsKept, BornBefore, Names;
  }

  lemma StepKeepsViewBorn(s: State, a: Action)
    requires BornBefore(s, s.view) && BornBefore(s, s.disk) && Enabled(s, a)
    requires s.candidate.Some? ==> s.candidate.value < s.born
    ensures BornBefore(Step(s, a), Step(s, a).view)
  {
    hide Names, Settled, Receipted, NoFiles;
  }

  lemma StepKeepsDiskBorn(s: State, a: Action)
    requires BornBefore(s, s.view) && BornBefore(s, s.disk) && Enabled(s, a)
    ensures BornBefore(Step(s, a), Step(s, a).disk)
  {
    hide Names, Settled, Receipted, NoFiles;
  }

  lemma StepKeepsBorn(s: State, a: Action)
    requires BornBefore(s, s.view) && BornBefore(s, s.disk) && CandidateKept(s) && Enabled(s, a)
    ensures BornBefore(Step(s, a), Step(s, a).view) && BornBefore(Step(s, a), Step(s, a).disk)
  {
    hide BornBefore, Step, Enabled;
    StepKeepsViewBorn(s, a);
    StepKeepsDiskBorn(s, a);
  }

  lemma StepKeepsFenced(s: State, a: Action)
    requires Core(s) && Enabled(s, a)
    ensures Fenced(Step(s, a))
  {
    hide NamesKept, PayloadKept, MismatchExplained, BornBefore, Names;
  }

  lemma StepKeepsShape(s: State, a: Action)
    requires Core(s) && Enabled(s, a)
    ensures Shaped(Step(s, a))
  {
    hide NamesKept, PayloadKept, MismatchExplained, CandidateKept, Rooted, BornBefore, Fenced, Step, Enabled;
    StepKeepsRooted(s, a);
    StepKeepsBorn(s, a);
    StepKeepsFenced(s, a);
  }

  lemma StepKeepsNames(s: State, a: Action)
    requires Core(s) && Enabled(s, a)
    ensures NamesKept(Step(s, a))
  {
    hide ClaimsKept, BornBefore;
  }

  lemma StepKeepsPayloads(s: State, a: Action)
    requires Core(s) && Enabled(s, a)
    ensures var t := Step(s, a); PayloadKept(t, t.view.root.active) && PayloadKept(t, t.disk.root.active)
  {
    hide MismatchExplained, BornBefore;
  }

  lemma StepKeepsMismatches(s: State, a: Action)
    requires Core(s) && Enabled(s, a)
    ensures var t := Step(s, a); MismatchExplained(t, t.view) && MismatchExplained(t, t.disk)
  {
    hide BornBefore;
  }

  lemma StepKeepsCandidate(s: State, a: Action)
    requires Core(s) && Enabled(s, a)
    ensures CandidateKept(Step(s, a))
  {
    hide MismatchExplained, PayloadKept, PayloadsKept, Rooted;
  }

  lemma StepKeepsClaims(s: State, a: Action)
    requires Core(s) && Enabled(s, a)
    ensures ClaimsKept(Step(s, a))
  {
    hide Core, Step, Enabled, PayloadKept, MismatchExplained, CandidateKept;
    StepKeepsPayloads(s, a);
    StepKeepsMismatches(s, a);
    StepKeepsCandidate(s, a);
  }

  lemma StepKeepsCore(s: State, a: Action)
    requires Core(s) && Enabled(s, a)
    ensures Core(Step(s, a))
  {
    StepKeepsShape(s, a);
    StepKeepsNames(s, a);
    StepKeepsClaims(s, a);
    hide Shaped, ClaimsKept, NamesKept, Step, Enabled;
  }

  /** Every step of the code, the producer, the kernel and the power supply keeps the invariant. */
  lemma StepKeeps(s: State, a: Action)
    requires Inv(s) && Enabled(s, a)
    ensures Inv(Step(s, a))
  {
    StepAcknowledges(s, a);
    StepKeepsCore(s, a);
    hide Core, Acknowledged, Step, Enabled;
  }

  // ----- Runs -----

  ghost predicate Legal(s: State, run: seq<Action>)
    decreases |run|, 0
  {
    run == [] || (Legal(s, run[..|run| - 1]) && Enabled(Run(s, run[..|run| - 1]), run[|run| - 1]))
  }

  ghost function Run(s: State, run: seq<Action>): State
    requires Legal(s, run)
    decreases |run|, 1
  {
    if run == [] then s else Step(Run(s, run[..|run| - 1]), run[|run| - 1])
  }

  /** In every reachable state, at every point of every interleaving, the invariant holds. */
  lemma {:induction false} RunKeeps(run: seq<Action>)
    requires Legal(Start(), run)
    ensures Inv(Run(Start(), run))
  {
    hide Inv, Step, Enabled;
    if run == [] {
      StartKeeps();
    } else {
      RunKeeps(run[..|run| - 1]);
      StepKeeps(Run(Start(), run[..|run| - 1]), run[|run| - 1]);
    }
  }

  lemma LegalPrefix(s: State, run: seq<Action>, a: Action)
    requires Legal(s, run) && Enabled(Run(s, run), a)
    ensures Legal(s, run + [a]) && Run(s, run + [a]) == Step(Run(s, run), a)
  {
    assert (run + [a])[..|run|] == run;
  }

  /** No step but the producer's own overwriting, a power loss, or the release of a receipted claim takes
      an inode out of sight; in particular an inbox entry with another inode is never removed. */
  lemma OnlyReceiptedInodesAreUnlinked(s: State, a: Action, j: Ino)
    requires Inv(s) && Enabled(s, a) && !a.Crash?
    requires j in Names(s.view) && j !in Names(Step(s, a).view)
    ensures (a.Enqueue? && s.view.inbox == Some(j))
         || (a.DropTomb? && Receipted(s, s.view.root.active.value) && s.view.root.active.value.ino == j)
  {
  }
}
