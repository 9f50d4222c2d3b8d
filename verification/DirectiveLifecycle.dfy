/** The code of the directive lifecycle over the durable disk of Directives.dfy.

    Every file operation is one step of that system, and between any two of them the producer may enqueue
    and the kernel may flush.  The log of steps is therefore a legal run, so what holds of every run holds
    at every point where a power loss may interrupt this code.  What is shown here is where the code ends:
    when the producer does not rewrite a directive while it is being claimed, recovery always reaches a
    state in which its claim is pending or consumed and acknowledged, and running it again takes no step. */
module DirectiveLifecycle {
  import opened Results
  import opened Directives

  datatype Outcome = Idle | Pending(it: Intent) | Cleaned(it: Intent) | Failed(reason: string)

  /** Steps the lifecycle code does not take. */
  predicate Outside(a: Action)
  {
    a.Enqueue? || a.FlushInbox? || a.FlushRoot? || a.FlushAcks?
  }

  predicate OutsideFrom(log: seq<Action>, n: nat)
  {
    forall i | n <= i < |log| :: Outside(log[i])
  }

  /** No claim is prepared, shown or durable. */
  predicate Unclaimed(s: State)
  {
    s.candidate.None? && s.view.root.active.None? && s.disk.root.active.None?
  }

  /** The producer rewrites a queued directive only while nothing is claimed; then the name the code
      checked is the one it renames. */
  predicate Courteous(s: State, a: Action)
  {
    && (a.Enqueue? ==> s.view.inbox.None? || Unclaimed(s))
    && (a.Quarantine? ==> s.view.root.active.Some? && s.view.inbox == Some(s.view.root.active.value.ino))
  }

  ghost predicate CourteousRun(run: seq<Action>)
    requires Legal(Start(), run)
  {
    run == [] || (CourteousRun(run[..|run| - 1]) && Courteous(Run(Start(), run[..|run| - 1]), run[|run| - 1]))
  }

  predicate OwnPayloads(r: Root)
  {
    r.active.Some? ==> Payloads(r) <= {r.active.value.ino}
  }

  predicate Intact(s: State, j: Option<Ino>)
  {
    j.Some? ==> j.value !in s.withdrawn
  }

  function InoOf(active: Option<Intent>): Option<Ino>
  {
    if active.Some? then Some(active.value.ino) else None
  }

  /** Nothing shown in the inbox, prepared or claimed has been overwritten, and a claim holds no payload
      but its own. */
  predicate Clean(s: State)
  {
    && (forall j | j in s.withdrawn :: j < s.born)
    && Intact(s, s.view.inbox) && Intact(s, s.candidate)
    && Intact(s, InoOf(s.view.root.active)) && Intact(s, InoOf(s.disk.root.active))
    && OwnPayloads(s.view.root) && OwnPayloads(s.disk.root)
  }

  /** No operation of the code is half done. */
  predicate AtRest(s: State)
  {
    Settled(s) && s.view.acks == s.disk.acks
  }

  /** An unbound claim with no payload name yet still has its source in the inbox, unless the producer
      overwrote it. */
  lemma SourceIsTheClaimed(s: State)
    requires Core(s) && Settled(s) && s.view.root.active.Some? && NoFiles(s.view.root)
    requires !Receipted(s, s.view.root.active.value)
    ensures var j := s.view.root.active.value.ino; s.view.inbox == Some(j) || j in s.withdrawn
  {
    hide PayloadsKept, MismatchExplained, BornBefore;
  }

  lemma StepKeepsClean(s: State, a: Action)
    requires Core(s) && Clean(s) && Enabled(s, a) && Courteous(s, a)
    ensures Clean(Step(s, a))
  {
    if a.TakeSource? {
      SourceIsTheClaimed(s);
    }
    hide NamesKept, PayloadKept, MismatchExplained, BornBefore;
  }

  lemma {:induction false} CourteousRunKeeps(run: seq<Action>)
    requires Legal(Start(), run) && CourteousRun(run)
    ensures Clean(Run(Start(), run))
  {
    hide Core, Acknowledged, Step, Enabled, Courteous, Clean;
    if run == [] {
      CleanFromTheStart();
    } else {
      var before := run[..|run| - 1];
      RunKeeps(before);
      CourteousRunKeeps(before);
      StepKeepsClean(Run(Start(), before), run[|run| - 1]);
    }
  }

  lemma CleanFromTheStart()
    ensures Clean(Start())
  {
  }

  /** When no claim is disturbed, a claim shown without a second name has none on the disk either. */
  lemma ShownMeansDurable(s: State)
    requires Core(s) && Clean(s) && Settled(s) && s.view.root.active.Some?
    requires s.view.inbox != Some(s.view.root.active.value.ino)
    ensures s.disk.inbox != Some(s.view.root.active.value.ino)
  {
    hide ClaimsKept, BornBefore, PayloadsKept;
  }

  // ----- What may happen between two steps of the code -----

  /** While a claim is prepared or shown, a courteous producer leaves a queued directive alone. */
  predicate Quiet(s: State, courteous: bool)
  {
    courteous && (s.view.root.active.Some? || s.candidate.Some?)
  }

  predicate Since(s: State, t: State, courteous: bool)
  {
    && t.view.root == s.view.root && t.view.acks == s.view.acks && t.receipts == s.receipts
    && t.candidate == s.candidate && t.synced == s.synced && t.nextId == s.nextId
    && (t.fence == s.fence || t.fence.NoFence?) && (t.inboxDirty ==> s.inboxDirty)
    && t.disk.acks in {s.disk.acks, s.view.acks}
    && (s.disk.root == s.view.root ==> t.disk.root == s.view.root)
    && (s.fence.InboxFenced? && t.fence.NoFence? ==> t.disk.root == s.view.root)
    && s.withdrawn <= t.withdrawn && (Quiet(s, courteous) ==> t.withdrawn == s.withdrawn) && s.born <= t.born
    && (t.born == s.born ==> t.view.inbox == s.view.inbox)
    && (forall j | s.born <= j < t.born :: t.view.inbox == Some(j) || j in t.withdrawn)
    && if t.view.inbox == s.view.inbox
       then t.disk.inbox in {s.disk.inbox, s.view.inbox} && t.withdrawn == s.withdrawn
       else t.view.inbox.Some? && t.view.inbox.value >= s.born && (Quiet(s, courteous) ==> s.view.inbox.None?)
            && (s.view.inbox.Some? ==> s.view.inbox.value in t.withdrawn)
  }

  /** Every inode shown, or queued meanwhile, is still shown or was overwritten by its producer; but for the
      one whose consumption is the point. */
  predicate Keeps(s: State, t: State, spent: Option<Ino>)
  {
    && s.withdrawn <= t.withdrawn && s.born <= t.born
    && (forall j | j in Names(s.view) && Some(j) != spent :: j in Names(t.view) || j in t.withdrawn)
    && (forall j | s.born <= j < t.born :: j in Names(t.view) || j in t.withdrawn)
  }

  lemma SinceKeeps(s: State, t: State, courteous: bool)
    requires Since(s, t, courteous)
    ensures Keeps(s, t, None)
  {
  }

  lemma KeepsTrans(s: State, t: State, u: State, spent: Option<Ino>)
    requires Keeps(s, t, spent) && Keeps(t, u, spent) && (spent.Some? ==> spent.value < s.born)
    ensures Keeps(s, u, spent)
  {
    hide Names;
  }

  lemma KeepsMore(s: State, t: State, spent: Option<Ino>)
    requires Keeps(s, t, None)
    ensures Keeps(s, t, spent)
  {
    hide Names;
  }

  /** What a step of the code takes out of sight. */
  function Spends(s: State, a: Action): Option<Ino>
    requires Enabled(s, a)
  {
    if a.DropTomb? then Some(s.view.root.active.value.ino) else None
  }

  lemma StepKeepsInodes(s: State, a: Action)
    requires Core(s) && Acknowledged(s) && Enabled(s, a) && !Outside(a) && !a.Crash?
    ensures Keeps(s, Step(s, a), Spends(s, a))
  {
    forall j | j in Names(s.view) && Some(j) != Spends(s, a) ensures j in Names(Step(s, a).view) {
      if j !in Names(Step(s, a).view) {
        OnlyReceiptedInodesAreUnlinked(s, a, j);
      }
    }
    hide Core, Acknowledged, Names;
  }

  /** A step of the code together with what happens before and after it. */
  lemma AroundStep(s: State, t: State, a: Action, u: State, courteous: bool)
    requires Core(s) && Since(s, t, courteous) && Core(t) && Acknowledged(t) && Enabled(t, a)
    requires !Outside(a) && !a.Crash? && Since(Step(t, a), u, courteous)
    ensures Keeps(s, u, Spends(t, a))
  {
    BornClaim(s);
    SinceKeeps(s, t, courteous);
    StepKeepsInodes(t, a);
    SinceKeeps(Step(t, a), u, courteous);
    assert t.view.root == s.view.root;
    DropTombHasActive(t, a);
    hide Core, Acknowledged, Since, Step, Enabled, Keeps;
    KeepsMore(s, t, Spends(t, a));
    KeepsMore(Step(t, a), u, Spends(t, a));
    KeepsTrans(s, t, Step(t, a), Spends(t, a));
    KeepsTrans(s, Step(t, a), u, Spends(t, a));
  }

  lemma AfterSince(s: State, t: State, u: State, spent: Option<Ino>, courteous: bool)
    requires Since(s, t, courteous) && Keeps(t, u, spent) && (spent.Some? ==> spent.value < s.born)
    ensures Keeps(s, u, spent)
  {
    SinceKeeps(s, t, courteous);
    hide Since, Keeps;
    KeepsMore(s, t, spent);
    KeepsTrans(s, t, u, spent);
  }

  lemma Follow(s: State, t: State, u: State, spent: Ino)
    requires Keeps(s, t, Some(spent)) && Keeps(t, u, None) && spent < s.born
    ensures Keeps(s, u, Some(spent))
  {
    hide Keeps;
    KeepsMore(t, u, Some(spent));
    KeepsTrans(s, t, u, Some(spent));
  }

  lemma KeepsItself(s: State, spent: Option<Ino>)
    ensures Keeps(s, s, spent)
  {
  }

  lemma KeepsShown(s: State, t: State)
    requires Keeps(s, t, None)
    ensures s.withdrawn <= t.withdrawn && s.born <= t.born
    ensures forall j | j in Names(s.view) :: j in Names(t.view) || j in t.withdrawn
  {
  }

  lemma Grown(s: State, t: State)
    requires Keeps(s, t, None)
    ensures s.withdrawn <= t.withdrawn && s.born <= t.born
  {
  }

  lemma DropTombHasActive(s: State, a: Action)
    requires Enabled(s, a)
    ensures a.DropTomb? ==> s.view.root.active.Some?
  {
    hide Settled, Receipted;
  }

  lemma SinceGrows(s: State, t: State, a: Action, courteous: bool)
    requires Since(s, t, courteous) && Outside(a) && Enabled(t, a) && (courteous ==> Courteous(t, a))
    requires Born(s, s.view.inbox)
    ensures Since(s, Step(t, a), courteous)
  {
  }

  lemma SinceTrans(s: State, t: State, u: State, courteous: bool)
    requires Since(s, t, courteous) && Since(t, u, courteous) && Born(s, s.view.inbox)
    ensures Since(s, u, courteous)
  {
  }

  /** What one durable operation of the code leaves unchanged, whatever happens beside it. */
  predicate Alongside(s: State, t: State)
  {
    && t.receipts == s.receipts && t.view.acks == s.view.acks
    && s.withdrawn <= t.withdrawn && s.born <= t.born
    && (t.born == s.born ==> t.view.inbox == s.view.inbox)
    && (t.view.inbox != s.view.inbox ==>
          t.view.inbox.Some? && t.view.inbox.value >= s.born
          && (s.view.inbox.Some? ==> s.view.inbox.value in t.withdrawn))
  }

  /** A queued directive other than the claimed one stays queued until its own producer replaces it. */
  predicate Untouched(s: State, t: State, it: Intent)
  {
    && s.withdrawn <= t.withdrawn
    && (s.view.inbox.Some? && s.view.inbox.value != it.ino ==>
          t.view.inbox == s.view.inbox || s.view.inbox.value in t.withdrawn)
  }

  /** The claim is in its own name and the inbox shows no second name of its inode. */
  predicate Held(s: State, it: Intent)
  {
    && Settled(s) && s.view.root == Root(Some(it), Some(Entry(it.id, it.ino)), None, None)
    && !Receipted(s, it) && s.view.inbox != Some(it.ino)
  }

  /** Nothing is left for recovery to do. */
  predicate Converged(s: State)
  {
    && AtRest(s)
    && (s.view.root.active.Some? ==> Held(s, s.view.root.active.value))
  }

  /** The claim is consumed: no payload name, no intent, and the acknowledgement durable. */
  predicate Consumed(s: State, it: Intent)
  {
    && AtRest(s) && s.view.root == EMPTY_ROOT && Receipted(s, it)
    && it.cycle in s.disk.acks && s.disk.acks[it.cycle] == it.id
  }

  /** Nothing of a held claim is lost to a power loss. */
  lemma HeldSurvivesPowerLoss(s: State, it: Intent)
    requires Core(s) && Clean(s) && Held(s, it)
    ensures Held(Step(s, Crash), it)
  {
    ShownMeansDurable(s);
    hide Core, Clean;
  }

  lemma BornClaim(s: State)
    requires Core(s)
    ensures s.view.root.active.Some? ==> s.view.root.active.value.ino < s.born
  {
    hide ClaimsKept, NamesKept, Rooted, Fenced;
  }

  /** What may stand in the claim root of an unbound claim. */
  lemma UnboundClaim(s: State, it: Intent, courteous: bool)
    requires Core(s) && (courteous ==> Clean(s)) && Settled(s) && s.view.root.active == Some(it) && !Receipted(s, it)
    ensures var r := s.view.root;
      && r.tomb.None? && (r.claim.Some? ==> r.claim.value.id == it.id) && (r.claim.None? ==> r.dup.None?)
      && (courteous ==> if r.claim.Some? then r.claim.value.ino == it.ino else s.view.inbox == Some(it.ino))
  {
    if NoFiles(s.view.root) {
      SourceIsTheClaimed(s);
    }
    hide NamesKept, PayloadKept, MismatchExplained, BornBefore;
  }

  /** And of one whose receipt is bound. */
  lemma ReceiptedClaim(s: State, it: Intent, courteous: bool)
    requires Core(s) && Acknowledged(s) && (courteous ==> Clean(s)) && s.view.root.active == Some(it)
        && Receipted(s, it)
    ensures var r := s.view.root;
      && (courteous && r.claim.Some? ==> r.claim.value == Entry(it.id, it.ino))
      && (r.claim.Some? ==> r.claim.value.id == it.id && r.tomb.None?) && (r.dup.Some? ==> r.claim.Some?)
      && (r.tomb.Some? ==> r.tomb.value == Entry(it.id, it.ino))
    ensures it.cycle in s.view.acks ==> s.view.acks[it.cycle] == it.id
  {
    hide NamesKept, PayloadKept, MismatchExplained, BornBefore, Fenced;
    assert CycleKept(s, it.cycle);
  }

  /** What no recovery can get past: a stranger among the payload names of the claim, or an unbound claim
      whose source is gone from the inbox before its payload had a name. */
  predicate Blocked(s: State)
  {
    s.view.root.active.Some? &&
    var it := s.view.root.active.value;
    !OwnPayloads(s.view.root) || (!Receipted(s, it) && NoFiles(s.view.root) && s.view.inbox != Some(it.ino))
  }

  /** An unbound claim whose claim name holds another directive. */
  predicate Mistaken(s: State)
  {
    s.view.root.active.Some? && !Receipted(s, s.view.root.active.value)
    && s.view.root.claim.Some? && s.view.root.claim.value.ino != s.view.root.active.value.ino
  }

  /** What an undisturbed recovery leaves in the inbox: not a second name of the inode it claims or consumes,
      unless that inode had no payload name left to compare it with. */
  function SourceAfter(s: State): Option<Ino>
  {
    if s.view.root.active.Some? && s.view.inbox == Some(s.view.root.active.value.ino)
       && !(Receipted(s, s.view.root.active.value) && s.view.root.claim.None?)
    then None else s.view.inbox
  }

  /** The inode a recovery may consume. */
  function SpentBy(s: State): Option<Ino>
  {
    if s.view.root.active.Some? && Receipted(s, s.view.root.active.value) then Some(s.view.root.active.value.ino)
    else None
  }

  lemma HeldIsNotBlocked(s: State, it: Intent)
    requires Held(s, it)
    ensures !Blocked(s)
  {
  }

  lemma FollowAll(s: State, t: State, u: State, spent: Option<Ino>)
    requires Keeps(s, t, spent) && Keeps(t, u, None) && (spent.Some? ==> spent.value < s.born)
    ensures Keeps(s, u, spent)
  {
    hide Keeps;
    KeepsMore(t, u, spent);
    KeepsTrans(s, t, u, spent);
  }

  class Desk {
    var s: State
    const courteous: bool
    ghost var log: seq<Action>

    ghost predicate Valid()
      reads this
    {
      Legal(Start(), log) && s == Run(Start(), log) && (courteous ==> CourteousRun(log))
    }

    ghost predicate Sound()
      reads this
    {
      Valid() && Core(s) && Acknowledged(s) && (courteous ==> Clean(s))
    }

    constructor (courteous: bool)
      ensures Valid() && log == [] && s == Start() && this.courteous == courteous
    {
      s, log, this.courteous := Start(), [], courteous;
    }

    lemma Soundly()
      requires Valid()
      ensures Sound()
    {
      hide Core, Clean;
      RunKeeps(log);
      if courteous {
        CourteousRunKeeps(log);
      }
    }

    /** One step of the system; every operation below is made of these. */
    method Take(a: Action)
      requires Valid() && Enabled(s, a) && (courteous ==> Courteous(s, a))
      modifies this`s, this`log
      ensures Valid() && s == Step(old(s), a) && log == old(log) + [a]
    {
      hide Step, Enabled, Courteous;
      LegalPrefix(Start(), log, a);
      assert (log + [a])[..|log|] == log;
      s, log := Step(s, a), log + [a];
    }

    /** Any number of enqueues and background flushes. */
    method Interfere()
      requires Valid()
      modifies this`s, this`log
      ensures Valid() && old(log) <= log && Since(old(s), s, courteous)
      ensures OutsideFrom(log, |old(log)|)
    {
      hide Run, Legal, CourteousRun;
      Soundly();
      var n: nat := *;
      while n > 0
        invariant Valid() && old(log) <= log && Since(old(s), s, courteous)
        invariant OutsideFrom(log, |old(log)|)
      {
        n := n - 1;
        var a: Action := *;
        if Outside(a) && Enabled(s, a) && (courteous ==> Courteous(s, a)) {
          SinceGrows(old(s), s, a, courteous);
          Take(a);
        }
      }
    }

    // ----- Fsyncs -----

    method FsyncRoot()
      requires Valid() && !s.fence.RootFenced?
      modifies this`s, this`log
      ensures Valid() && old(log) <= log && Since(old(s), s, courteous)
      ensures s.disk.root == s.view.root && s.fence.NoFence?
      ensures OutsideFrom(log, |old(log)|)
    {
      hide Run, Legal, CourteousRun;
      Soundly();
      Interfere();
      SinceGrows(old(s), s, FlushRoot, courteous);
      Take(FlushRoot);
      var flushed := s;
      Interfere();
      SinceTrans(old(s), flushed, s, courteous);
    }

    method FsyncInbox()
      requires Valid() && !s.fence.InboxFenced?
      modifies this`s, this`log
      ensures Valid() && old(log) <= log && Since(old(s), s, courteous)
      ensures !s.inboxDirty && s.fence.NoFence?
      ensures s.view.inbox == old(s.view.inbox) ==> s.disk.inbox == s.view.inbox
      ensures OutsideFrom(log, |old(log)|)
    {
      hide Run, Legal, CourteousRun;
      Soundly();
      Interfere();
      SinceGrows(old(s), s, FlushInbox, courteous);
      Take(FlushInbox);
      var flushed := s;
      Interfere();
      SinceTrans(old(s), flushed, s, courteous);
    }

    method FsyncAcks()
      requires Valid()
      modifies this`s, this`log
      ensures Valid() && old(log) <= log && Since(old(s), s, courteous)
      ensures s.view.acks == s.disk.acks
      ensures OutsideFrom(log, |old(log)|)
    {
      hide Run, Legal, CourteousRun;
      Soundly();
      Interfere();
      SinceGrows(old(s), s, FlushAcks, courteous);
      Take(FlushAcks);
      var flushed := s;
      Interfere();
      SinceTrans(old(s), flushed, s, courteous);
    }

    // ----- Retiring a second name -----

    /** Removes a payload name of the claim root durably. */
    method Unlink(a: Action)
      requires Valid() && Enabled(s, a) && (a.DropDuplicate? || a.DropTomb? || a.DropActive? || a.Cancel?)
      modifies this`s, this`log
      ensures Valid() && old(log) <= log && Since(Step(old(s), a), s, courteous) && Settled(s)
      ensures Keeps(old(s), s, Spends(old(s), a))
    {
      hide Run, Legal, CourteousRun;
      Soundly();
      Take(a);
      var unlinked := s;
      FsyncRoot();
      AroundStep(old(s), old(s), a, s, courteous);
    }

    /** Renames between the inbox and the claim root, the surviving name first. */
    method RenameDurable(a: Action)
      requires Valid() && Enabled(s, a) && (courteous ==> Courteous(s, a))
      requires a.TakeSource? || a.Quarantine? || a.PutBack? || a.Unquarantine?
      modifies this`s, this`log
      ensures Valid() && old(log) <= log && Since(Step(old(s), a), s, courteous) && Settled(s)
      ensures Keeps(old(s), s, None)
    {
      hide Run, Legal, CourteousRun;
      Soundly();
      Take(a);
      var renamed := s;
      assert Born(renamed, renamed.view.inbox) by { Soundly(); }
      if a.TakeSource? || a.Quarantine? {
        FsyncRoot();
        var anchored := s;
        FsyncInbox();
        SinceTrans(renamed, anchored, s, courteous);
      } else {
        FsyncInbox();
        var anchored := s;
        FsyncRoot();
        SinceTrans(renamed, anchored, s, courteous);
      }
      AroundStep(old(s), old(s), a, s, courteous);
    }

    method DropDuplicateDurably(it: Intent)
      requires Valid() && AtRest(s)
      requires s.view.root.active == Some(it) && InoAt(s.view.root.dup) == Some(it.ino)
      modifies this`s, this`log
      ensures Valid() && old(log) <= log && AtRest(s)
      ensures s.view.root == old(s.view.root).(dup := None) && Alongside(old(s), s) && Keeps(old(s), s, None)
    {
      hide Run, Legal, CourteousRun, Keeps;
      Interfere();
      var before := s;
      Unlink(DropDuplicate);
      AfterSince(old(s), before, s, None, courteous);
    }

    /** The source was seen to be the claimed inode; the producer may still rewrite it before the rename. */
    method QuarantineSource(it: Intent) returns (ok: bool)
      requires Valid() && AtRest(s) && s.view.root == Root(Some(it), Some(Entry(it.id, it.ino)), None, None)
      requires s.view.inbox == Some(it.ino)
      modifies this`s, this`log
      ensures Valid() && old(log) <= log && AtRest(s)
      ensures s.receipts == old(s.receipts) && s.view.acks == old(s.view.acks) && old(s.withdrawn) <= s.withdrawn
      ensures ok ==> s.view.root == old(s.view.root) && s.view.inbox != Some(it.ino)
      // a directive that was quarantined by mistake goes back unless a newer one is queued
      ensures !ok ==> s.view.root == old(s.view.root) || s.view.inbox.Some?
      ensures Keeps(old(s), s, None)
      ensures courteous ==> ok
      ensures s.born == old(s.born) ==> ok && s.view.inbox.None?
      ensures old(s.born) <= s.born
    {
      hide Run, Legal, CourteousRun, Keeps;
      assert it.ino < s.born by { Soundly(); }
      Interfere();
      var seen := s;
      RenameDurable(Quarantine);
      AfterSince(old(s), seen, s, None, courteous);
      var moved := s;
      if s.view.root.dup.value.ino == it.ino {
        hide Step;
        DropDuplicateDurably(it);
        KeepsTrans(old(s), moved, s, None);
        return true;
      }
      Interfere();
      SinceKeeps(moved, s, courteous);
      KeepsTrans(old(s), moved, s, None);
      if s.view.inbox.None? {
        var empty := s;
        RenameDurable(Unquarantine);
        KeepsTrans(old(s), empty, s, None);
      }
      return false;
    }

    method RecoverDuplicateSource(it: Intent) returns (ok: bool)
      requires Valid() && AtRest(s)
      requires var r := s.view.root; r.active == Some(it) && r.claim == Some(Entry(it.id, it.ino)) && r.tomb.None?
      modifies this`s, this`log
      ensures Valid() && old(log) <= log && AtRest(s)
      ensures s.receipts == old(s.receipts) && s.view.acks == old(s.view.acks)
      ensures ok ==> s.view.root == old(s.view.root).(dup := None) && s.view.inbox != Some(it.ino)
      ensures !ok && old(s.view.root.dup.None?) ==> s.view.root == old(s.view.root) || s.view.inbox.Some?
      ensures Keeps(old(s), s, None)
      ensures courteous ==> ok && Untouched(old(s), s, it)
      ensures s.born == old(s.born) ==>
        (ok <==> old(s.view.root.dup.None? || s.view.root.dup.value.ino == it.ino))
      ensures old(s.born) <= s.born
      ensures s.born == old(s.born) ==>
        s.view.inbox == if ok && old(s.view.inbox) == Some(it.ino) then None else old(s.view.inbox)
      ensures old(s.view.root.dup.None? && s.view.inbox != Some(it.ino)) ==> OutsideFrom(log, |old(log)|)
    {
      hide Run, Legal, CourteousRun, Step, Enabled, Courteous, Keeps;
      assert it.ino < s.born && (courteous ==> Clean(s)) by { Soundly(); }
      hide Core;
      Interfere();
      SinceKeeps(old(s), s, courteous);
      var seen := s;
      if s.view.root.dup.Some? {
        if s.view.root.dup.value.ino != it.ino {
          return false;
        }
        var source := s.view.inbox;
        DropDuplicateDurably(it);
        KeepsTrans(old(s), seen, s, None);
        if source.None? || source.value != it.ino {
          return true;
        }
      }
      if s.view.inbox != Some(it.ino) {
        return true;
      }
      seen := s;
      ok := QuarantineSource(it);
      KeepsTrans(old(s), seen, s, None);
    }

    // ----- Bringing the payload of an intent into its claim name -----

    /** The renamed inode is not the intended one: it goes back to the inbox and the intent is withdrawn. */
    method RestoreMismatchedClaim(it: Intent)
      requires Valid() && AtRest(s) && s.view.root.active == Some(it) && !Receipted(s, it) && it.ino in s.withdrawn
      requires s.view.root.claim.Some? && s.view.root.claim.value.ino != it.ino && s.view.root.dup.None?
          && s.view.root.tomb.None?
      modifies this`s, this`log
      ensures Valid() && old(log) <= log && AtRest(s) && s.receipts == old(s.receipts)
      ensures s.view.root == EMPTY_ROOT || (s.view.root == old(s.view.root) && s.view.inbox.Some?)
      ensures var j := old(s.view.root.claim.value.ino); j in Names(s.view) || j in s.withdrawn
      ensures Keeps(old(s), s, None)
      ensures s.view.root == EMPTY_ROOT ==>
        s.view.inbox == Some(old(s.view.root.claim.value.ino)) || old(s.view.root.claim.value.ino) in s.withdrawn
      ensures old(s.view.inbox.None?) && s.born == old(s.born) ==>
        s.view.root == EMPTY_ROOT && s.view.inbox == Some(old(s.view.root.claim.value.ino))
    {
      hide Run, Legal, CourteousRun, Keeps;
      Interfere();
      SinceKeeps(old(s), s, courteous);
      var seen := s;
      if s.view.inbox.None? {
        RenameDurable(PutBack);
        KeepsTrans(old(s), seen, s, None);
        seen := s;
        Interfere();
        var again := s;
        Unlink(Cancel);
        AfterSince(seen, again, s, None, courteous);
        KeepsTrans(old(s), seen, s, None);
      }
      KeepsShown(old(s), s);
    }

    method TakeSourceDurably(it: Intent)
      requires Valid() && AtRest(s) && s.view.root == Root(Some(it), None, None, None) && !Receipted(s, it)
      requires s.view.inbox.Some?
      modifies this`s, this`log
      ensures Valid() && old(log) <= log && AtRest(s) && s.receipts == old(s.receipts)
      ensures var r := s.view.root;
        r.claim.Some? && r == Root(Some(it), Some(Entry(it.id, r.claim.value.ino)), None, None)
      ensures InoAt(s.view.root.claim) == Some(it.ino) ==> s.view.inbox != Some(it.ino)
      ensures InoAt(s.view.root.claim) != Some(it.ino) ==> !courteous && it.ino in s.withdrawn
      ensures Keeps(old(s), s, None)
      ensures s.born == old(s.born) ==> InoAt(s.view.root.claim) == old(s.view.inbox) && s.view.inbox.None?
    {
      hide Run, Legal, CourteousRun, Keeps;
      Interfere();
      var seen := s;
      assert s.view.inbox == Some(it.ino) || it.ino in s.withdrawn by {
        Soundly();
        SourceIsTheClaimed(s);
      }
      assert it.ino < s.born && (courteous ==> it.ino !in s.withdrawn) by { Soundly(); }
      var k := s.view.inbox.value;
      RenameDurable(TakeSource);
      AfterSince(old(s), seen, s, None, courteous);
      Grown(old(s), s);
      assert s.view.root == Root(Some(it), Some(Entry(it.id, k)), None, None);
    }

    /** Takes the inbox entry into the claim name, and puts it back if it is not the intended one. */
    method ClaimSource(it: Intent) returns (o: Outcome)
      requires Valid() && AtRest(s) && s.view.root == Root(Some(it), None, None, None) && !Receipted(s, it)
      requires s.view.inbox.Some?
      modifies this`s, this`log
      ensures Valid() && old(log) <= log && AtRest(s) && s.receipts == old(s.receipts)
      ensures o.Failed? || (o == Pending(it) && Held(s, it))
      ensures courteous ==> o == Pending(it)
      ensures Keeps(old(s), s, None)
      ensures o.Failed? ==> s.view.root == EMPTY_ROOT || s.view.inbox.Some?
      ensures s.born == old(s.born) ==> (o.Pending? <==> old(s.view.inbox) == Some(it.ino))
      ensures s.born == old(s.born) ==> s.view.inbox == if o.Pending? then None else old(s.view.inbox)
    {
      hide Run, Legal, CourteousRun, Keeps;
      TakeSourceDurably(it);
      Grown(old(s), s);
      if s.view.root.claim.value.ino == it.ino {
        return Pending(it);
      }
      var seen := s;
      RestoreMismatchedClaim(it);
      KeepsTrans(old(s), seen, s, None);
      Grown(seen, s);
      return Failed("claimed payload does not match its intent");
    }

    method Materialize(it: Intent) returns (o: Outcome)
      requires Valid() && AtRest(s) && s.view.root.active == Some(it) && !Receipted(s, it)
      modifies this`s, this`log
      ensures Valid() && old(log) <= log && AtRest(s) && s.receipts == old(s.receipts)
      ensures o.Failed? || (o == Pending(it) && Held(s, it))
      ensures courteous ==> o == Pending(it) && Untouched(old(s), s, it)
      ensures old(Held(s, it)) ==> OutsideFrom(log, |old(log)|)
      // no directive is lost, and a directive taken by mistake goes back unless a newer one is queued
      ensures Keeps(old(s), s, None)
      ensures o.Failed? && old(NoFiles(s.view.root)) ==>
        s.view.root == EMPTY_ROOT || s.view.inbox.Some? || (old(s.view.inbox.None?) && s.view.root == old(s.view.root))
      // if nothing is queued meanwhile it fails exactly on a blocked claim, and takes nothing but its own
      ensures s.born == old(s.born) ==> (o.Failed? <==> Blocked(old(s)))
      ensures s.born == old(s.born) ==>
        s.view.inbox == if old(s.view.inbox) == Some(it.ino) && o.Pending? then None else old(s.view.inbox)
      ensures old(s.view.root.claim.Some? && s.view.root.claim.value.ino != it.ino) ==>
        o.Failed? && s.view.root == old(s.view.root)
      ensures old(s.born) <= s.born
    {
      hide Run, Legal, CourteousRun, Step, Enabled, Courteous, Core, Clean, RootShape, Keeps;
      Soundly();
      BornClaim(s);
      Interfere();
      Soundly();
      SinceKeeps(old(s), s, courteous);
      var r, seen := s.view.root, s;
      UnboundClaim(s, it, courteous);
      if r.tomb.Some? {
        return Failed("uncommitted claim has a consuming tombstone");
      }
      if r.claim.Some? {
        if r.claim.value.ino != it.ino {
          return Failed("claimed payload does not match its intent");
        }
        assert r == Root(Some(it), Some(Entry(it.id, it.ino)), r.dup, None);
        var ok := RecoverDuplicateSource(it);
        KeepsTrans(old(s), seen, s, None);
        if !ok {
          return Failed("source changed during duplicate recovery");
        }
        return Pending(it);
      }
      if r.dup.Some? {
        return Failed("duplicate quarantine without its claim");
      }
      if s.view.inbox.None? {
        return Failed("prepared claim lost both source and claimed payload");
      }
      o := ClaimSource(it);
      KeepsTrans(old(s), seen, s, None);
      Grown(seen, s);
    }

    // ----- Consuming a claim whose receipt is bound -----

    method EntombDurably(it: Intent)
      requires Valid() && AtRest(s) && s.view.root == Root(Some(it), Some(Entry(it.id, it.ino)), None, None)
      requires Receipted(s, it) && s.view.inbox != Some(it.ino)
      modifies this`s, this`log
      ensures Valid() && old(log) <= log && AtRest(s) && Alongside(old(s), s)
      ensures s.view.root == Root(Some(it), None, None, Some(Entry(it.id, it.ino))) && Keeps(old(s), s, None)
    {
      hide Run, Legal, CourteousRun, Keeps;
      assert it.ino < s.born by { Soundly(); }
      Soundly();
      Interfere();
      Soundly();
      var before := s;
      Take(Entomb);
      FsyncRoot();
      AroundStep(old(s), before, Entomb, s, courteous);
    }

    method DropTombDurably(it: Intent)
      requires Valid() && AtRest(s) && Receipted(s, it)
      requires s.view.root == Root(Some(it), None, None, Some(Entry(it.id, it.ino)))
      modifies this`s, this`log
      ensures Valid() && old(log) <= log && AtRest(s) && Alongside(old(s), s)
      ensures s.view.root == Root(Some(it), None, None, None) && Keeps(old(s), s, Some(it.ino))
    {
      hide Run, Legal, CourteousRun, Keeps;
      assert it.ino < s.born by { Soundly(); }
      Interfere();
      var before := s;
      Unlink(DropTomb);
      AfterSince(old(s), before, s, Some(it.ino), courteous);
    }

    method AcknowledgeDurably(it: Intent)
      requires Valid() && AtRest(s) && Receipted(s, it) && s.view.root == Root(Some(it), None, None, None)
      modifies this`s, this`log
      ensures Valid() && old(log) <= log && AtRest(s) && s.receipts == old(s.receipts)
      ensures s.view.root == old(s.view.root) && s.view.acks == old(s.view.acks)[it.cycle := it.id]
      ensures courteous ==> Untouched(old(s), s, it)
      ensures Keeps(old(s), s, None)
      ensures old(s.born) <= s.born && (s.born == old(s.born) ==> s.view.inbox == old(s.view.inbox))
    {
      hide Run, Legal, CourteousRun, Keeps;
      Soundly();
      Interfere();
      Soundly();
      var before := s;
      Take(Acknowledge);
      FsyncAcks();
      AroundStep(old(s), before, Acknowledge, s, courteous);
    }

    method DropActiveDurably(it: Intent)
      requires Valid() && AtRest(s) && Receipted(s, it) && s.view.root == Root(Some(it), None, None, None)
      requires it.cycle in s.view.acks
      modifies this`s, this`log
      ensures Valid() && old(log) <= log && AtRest(s) && Alongside(old(s), s)
      ensures s.view.root == EMPTY_ROOT && Keeps(old(s), s, None)
    {
      hide Run, Legal, CourteousRun, Keeps;
      Interfere();
      var before := s;
      Unlink(DropActive);
      AfterSince(old(s), before, s, None, courteous);
    }

    /** Removes the payload of a consumed claim, whichever of its names it still has. */
    method RetirePayload(it: Intent) returns (failed: Option<string>)
      requires Valid() && AtRest(s) && s.view.root.active == Some(it) && Receipted(s, it)
      modifies this`s, this`log
      ensures Valid() && old(log) <= log && AtRest(s)
      ensures s.receipts == old(s.receipts) && s.view.acks == old(s.view.acks)
      ensures failed.None? ==> s.view.root == Root(Some(it), None, None, None)
      ensures courteous ==> failed.None? && Untouched(old(s), s, it)
      ensures Keeps(old(s), s, Some(it.ino)) && old(s.born) <= s.born
      ensures s.born == old(s.born) ==> (failed.Some? <==> Blocked(old(s)))
      ensures s.born == old(s.born) && failed.None? ==>
        s.view.inbox == if old(s.view.inbox) == Some(it.ino) && old(s.view.root.claim.Some?) then None
                        else old(s.view.inbox)
    {
      hide Run, Legal, CourteousRun, Step, Enabled, Courteous, Core, Clean, RootShape, Keeps;
      Soundly();
      BornClaim(s);
      Interfere();
      Soundly();
      SinceKeeps(old(s), s, courteous);
      KeepsMore(old(s), s, Some(it.ino));
      var r, seen := s.view.root, s;
      ReceiptedClaim(s, it, courteous);
      if r.claim.Some? {
        if r.claim.value.ino != it.ino {
          return Some("claimed payload does not match its intent");
        }
        var ok := RecoverDuplicateSource(it);
        Follow(old(s), seen, s, it.ino);
        if !ok {
          return Some("source changed during duplicate recovery");
        }
        seen := s;
        EntombDurably(it);
        Follow(old(s), seen, s, it.ino);
        seen := s;
      }
      if s.view.root.tomb.Some? {
        DropTombDurably(it);
        KeepsTrans(old(s), seen, s, Some(it.ino));
      }
      return None;
    }

    /** Writes the acknowledgement unless it is there, and drops the intent. */
    method CloseClaim(it: Intent) returns (o: Outcome)
      requires Valid() && AtRest(s) && s.view.root == Root(Some(it), None, None, None) && Receipted(s, it)
      requires it.cycle in s.view.acks ==> s.view.acks[it.cycle] == it.id
      modifies this`s, this`log
      ensures Valid() && old(log) <= log && AtRest(s) && s.receipts == old(s.receipts)
      ensures o == Cleaned(it) && Consumed(s, it)
      ensures courteous ==> Untouched(old(s), s, it)
      ensures Keeps(old(s), s, None)
      ensures old(s.born) <= s.born && (s.born == old(s.born) ==> s.view.inbox == old(s.view.inbox))
    {
      hide Run, Legal, CourteousRun, Step, Enabled, Courteous, Core, Clean, RootShape, Keeps;
      KeepsItself(s, None);
      var seen := s;
      if it.cycle !in s.view.acks {
        AcknowledgeDurably(it);
        seen := s;
      } else if s.view.acks[it.cycle] != it.id {
        assert false;
        return Failed("acknowledgement does not match its receipt");
      }
      DropActiveDurably(it);
      KeepsTrans(old(s), seen, s, None);
      return Cleaned(it);
    }

    method Finalize(it: Intent) returns (o: Outcome)
      requires Valid() && AtRest(s) && s.view.root.active == Some(it) && Receipted(s, it)
      modifies this`s, this`log
      ensures Valid() && old(log) <= log && AtRest(s) && s.receipts == old(s.receipts)
      ensures o.Failed? || (o == Cleaned(it) && Consumed(s, it))
      ensures courteous ==> o == Cleaned(it) && Untouched(old(s), s, it)
      // only the consumed inode goes
      ensures Keeps(old(s), s, Some(it.ino)) && old(s.born) <= s.born
      // if nothing is queued meanwhile it fails exactly on a blocked claim, and takes nothing but its own
      ensures s.born == old(s.born) ==> (o.Failed? <==> Blocked(old(s)))
      ensures s.born == old(s.born) && o.Cleaned? ==>
        s.view.inbox == if old(s.view.inbox) == Some(it.ino) && old(s.view.root.claim.Some?) then None
                        else old(s.view.inbox)
    {
      hide Run, Legal, CourteousRun, Step, Enabled, Courteous, Core, Clean, RootShape, Keeps, Blocked;
      Soundly();
      BornClaim(s);
      var failed := RetirePayload(it);
      if failed.Some? {
        return Failed(failed.value);
      }
      Soundly();
      ReceiptedClaim(s, it, courteous);
      var seen := s;
      o := CloseClaim(it);
      Follow(old(s), seen, s, it.ino);
    }

    // ----- The two entry points -----

    /** Every bound receipt but the active claim's own has been acknowledged, and only those. */
    predicate ConsumptionsValid(allow: Option<int>)
      reads this
    {
      && (forall c | c in s.receipts && s.receipts[c].Some? && Some(c) != allow ::
            c in s.view.acks && s.view.acks[c] == s.receipts[c].value.id)
      && (forall c | c in s.view.acks :: c in s.receipts && s.receipts[c].Some?)
    }

    lemma ConsumptionsAlwaysValid()
      requires Sound()
      ensures ConsumptionsValid(if s.view.root.active.Some? then Some(s.view.root.active.value.cycle) else None)
    {
      hide Core, Clean, Run, Legal;
      forall c | c in s.receipts && s.receipts[c].Some? && Some(s.receipts[c].value) != s.view.root.active
        ensures c in s.view.acks && s.view.acks[c] == s.receipts[c].value.id && s.receipts[c].value.cycle == c
      {
        assert CycleKept(s, c);
      }
      forall c | c in s.view.acks ensures c in s.receipts && s.receipts[c].Some? {
        assert CycleKept(s, c);
      }
      forall c | c in s.receipts && s.receipts[c].Some? ensures s.receipts[c].value.cycle == c {
        assert CycleKept(s, c);
      }
    }

    /** Replays a prepared claim or the cleanup of a completed one. */
    method RecoverCompleted() returns (o: Outcome)
      requires Valid() && AtRest(s)
      modifies this`s, this`log
      ensures Valid() && old(log) <= log && AtRest(s) && s.receipts == old(s.receipts)
      // what became of the claim
      ensures var a := old(s.view.root.active);
        match o
        case Idle => a.None? && s.view.root == EMPTY_ROOT
        case Pending(it) => a == Some(it) && !Receipted(s, it) && Held(s, it)
        case Cleaned(it) => a == Some(it) && Consumed(s, it)
        case Failed(_) => a.Some?
      // a producer that rewrites no directive while one is claimed never blocks it
      ensures courteous ==> !o.Failed? && Converged(s)
      ensures courteous && !o.Idle? ==> Untouched(old(s), s, old(s.view.root.active.value))
      ensures o.Idle? ==> s == old(s)
      // whatever happened before, it fails exactly on a blocked claim if nothing is queued meanwhile
      ensures s.born == old(s.born) ==> (o.Failed? <==> Blocked(old(s)))
      ensures s.born == old(s.born) && !o.Failed? ==> s.view.inbox == SourceAfter(old(s))
      // a directive left in the claim name of another is never put back, whatever the inbox does
      ensures Mistaken(old(s)) ==> o.Failed? && s.view.root == old(s.view.root)
      // and no directive is lost but the one consumed
      ensures Keeps(old(s), s, SpentBy(old(s)))
      ensures old(s.born) <= s.born
      // and there is nothing to do twice
      ensures old(Converged(s)) ==> OutsideFrom(log, |old(log)|)
    {
      hide Run, Legal, CourteousRun, Step, Enabled, Courteous;
      assert Sound() by { Soundly(); }
      var active := s.view.root.active;
      var allow := if active.Some? then Some(active.value.cycle) else None;
      ConsumptionsAlwaysValid();
      assert CycleFree(s, active) && (active.None? ==> NoFiles(s.view.root));
      hide Core, Clean;
      if !ConsumptionsValid(allow) {
        return Failed("consumption acknowledgements are incomplete");
      }
      KeepsItself(s, SpentBy(s));
      if active.None? {
        if !NoFiles(s.view.root) {
          return Failed("unowned payload in the claim root");
        }
        return Idle;
      }
      var it := active.value;
      if Receipted(s, it) {
        o := Finalize(it);
      } else if it.cycle in s.receipts {
        return Failed("completed cycle has an active claim but no receipt");
      } else {
        o := Materialize(it);
      }
    }

    /** Starting from nothing but what a power loss left. */
    method RecoverAfterPowerLoss() returns (o: Outcome)
      requires Valid()
      modifies this`s, this`log
      ensures Valid() && old(log) <= log && AtRest(s) && s.receipts == old(s.receipts)
      ensures var a := old(s.disk.root.active);
        match o
        case Idle => a.None? && s.view.root == EMPTY_ROOT
        case Pending(it) => a == Some(it) && !Receipted(s, it) && Held(s, it)
        case Cleaned(it) => a == Some(it) && Consumed(s, it)
        case Failed(_) => a.Some?
      ensures courteous ==> !o.Failed? && Converged(s)
      ensures s.born == old(s.born) ==> (o.Failed? <==> Blocked(Step(old(s), Crash)))
      ensures Keeps(Step(old(s), Crash), s, SpentBy(Step(old(s), Crash)))
    {
      hide Run, Legal, CourteousRun, Keeps, Blocked;
      Take(Crash);
      o := RecoverCompleted();
    }

    // ----- Claiming -----

    /** Makes the producer's entry durable, then publishes an intent bound to the inode it still shows. */
    method NewIntent(cycle: int) returns (o: Option<Intent>)
      requires Valid() && AtRest(s) && s.view.root == EMPTY_ROOT && cycle !in s.receipts && s.view.inbox.Some?
      modifies this`s, this`log
      ensures Valid() && old(log) <= log && AtRest(s) && s.receipts == old(s.receipts)
      ensures o.Some? ==> o.value.cycle == cycle && s.view.root == EMPTY_ROOT.(active := o)
                          && Some(o.value.ino) == old(s.view.inbox)
      ensures old(s.withdrawn) <= s.withdrawn && (o.None? ==> old(s.view.inbox.value) in s.withdrawn)
      ensures o.None? ==> s.view.root == EMPTY_ROOT
      ensures Keeps(old(s), s, None) && old(s.born) <= s.born && s.view.inbox.Some?
      ensures s.born == old(s.born) ==> o.Some? && s.view.inbox == old(s.view.inbox)
    {
      hide Run, Legal, CourteousRun, Keeps;
      var source := s.view.inbox;
      Soundly();
      assert Born(s, source);
      Take(SyncSource);
      FsyncInbox();
      AroundStep(old(s), old(s), SyncSource, s, courteous);
      if s.view.inbox != source {
        return None;
      }
      var anchored := s;
      Soundly();
      Take(Prepare);
      Interfere();
      AroundStep(anchored, anchored, Prepare, s, courteous);
      KeepsTrans(old(s), anchored, s, None);
      anchored := s;
      Soundly();
      Take(WriteActive(cycle));
      o := s.view.root.active;
      FsyncRoot();
      AroundStep(anchored, anchored, WriteActive(cycle), s, courteous);
      KeepsTrans(old(s), anchored, s, None);
    }

    lemma ShownIsIntact()
      requires Valid()
      ensures courteous ==> Intact(s, s.view.inbox)
    {
      hide Core, Run, Legal;
      Soundly();
    }

    /** Claims the inbox entry for `cycle`, or replays that cycle's own claim. */
    method ClaimNext(cycle: int) returns (o: Outcome)
      requires Valid() && AtRest(s)
      modifies this`s, this`log
      ensures Valid() && old(log) <= log && AtRest(s) && s.receipts == old(s.receipts)
      ensures o.Pending? ==> o.it.cycle == cycle && Held(s, o.it)
      ensures o.Idle? ==> s.view.root == EMPTY_ROOT && cycle !in s.receipts
      ensures !o.Cleaned?
      // no directive is lost but one already consumed; one claimed by mistake is back in the inbox, or was
      // replaced there, or a newer one is queued beside it
      ensures Keeps(old(s), s, SpentBy(old(s)))
      ensures o.Failed? && old(s.view.root) == EMPTY_ROOT ==> s.view.root == EMPTY_ROOT || s.view.inbox.Some?
      ensures Mistaken(old(s)) ==> o.Failed? && s.view.root == old(s.view.root)
      // whatever happened before, if nothing is queued during the call
      ensures s.born == old(s.born) ==>
        var a, source := old(s.view.root.active), SourceAfter(old(s));
        if Blocked(old(s)) then o.Failed?
        else if a.Some? && !Receipted(old(s), a.value) then
          if a.value.cycle == cycle then o == Pending(a.value) else o.Failed?
        else if cycle in s.receipts then o.Failed?
        else if source.None? then o.Idle?
        else o.Pending? && Some(o.it.ino) == source
      ensures courteous ==>
        var a, source := old(s.view.root.active), old(s.view.inbox);
        if a.Some? && !Receipted(old(s), a.value) then
          if a.value.cycle == cycle then o == Pending(a.value) else o.Failed?
        else if cycle in s.receipts then o.Failed?
        // an entry may fail to be claimed only if its producer replaced it during this very call
        else (o.Failed? ==> s.withdrawn != old(s.withdrawn))
             && (source.Some? && (a.Some? ==> source.value != a.value.ino) ==>
                   (o.Pending? && Some(o.it.ino) == source) || source.value in s.withdrawn)
    {
      hide Run, Legal, CourteousRun, Step, Enabled, Courteous, Core, Clean, Keeps, Blocked;
      Soundly();
      BornClaim(s);
      var recovered := RecoverCompleted();
      if recovered.Failed? {
        return recovered;
      }
      var seen := s;
      if recovered.Pending? {
        if recovered.it.cycle != cycle {
          return Failed("active claim belongs to a different cycle");
        }
        HeldIsNotBlocked(s, recovered.it);
        o := Materialize(recovered.it);
        FollowAll(old(s), seen, s, SpentBy(old(s)));
        return;
      }
      if cycle in s.receipts {
        return Failed("cycle is already complete");
      }
      o := ClaimQueued(cycle);
      FollowAll(old(s), seen, s, SpentBy(old(s)));
    }

    /** Claims what the inbox shows, with no claim in the way. */
    method ClaimQueued(cycle: int) returns (o: Outcome)
      requires Valid() && AtRest(s) && s.view.root == EMPTY_ROOT && cycle !in s.receipts
      modifies this`s, this`log
      ensures Valid() && old(log) <= log && AtRest(s) && s.receipts == old(s.receipts)
      ensures o.Pending? ==> o.it.cycle == cycle && Held(s, o.it)
      ensures o.Idle? ==> s.view.root == EMPTY_ROOT
      ensures !o.Cleaned?
      ensures Keeps(old(s), s, None) && old(s.born) <= s.born && old(s.withdrawn) <= s.withdrawn
      ensures o.Failed? ==> s.view.root == EMPTY_ROOT || s.view.inbox.Some?
      ensures s.born == old(s.born) ==>
        if old(s.view.inbox).None? then o.Idle? else o.Pending? && Some(o.it.ino) == old(s.view.inbox)
      ensures courteous ==>
        && (o.Failed? ==> s.withdrawn != old(s.withdrawn))
        && (old(s.view.inbox).Some? ==>
              (o.Pending? && Some(o.it.ino) == old(s.view.inbox)) || old(s.view.inbox.value) in s.withdrawn)
    {
      hide Run, Legal, CourteousRun, Step, Enabled, Courteous, Core, Clean, Keeps;
      Interfere();
      SinceKeeps(old(s), s, courteous);
      if s.view.inbox.None? {
        return Idle;
      }
      var seen := s;
      Interfere();
      SinceKeeps(seen, s, courteous);
      KeepsTrans(old(s), seen, s, None);
      seen := s;
      ShownIsIntact();
      var intent := NewIntent(cycle);
      KeepsTrans(old(s), seen, s, None);
      if intent.None? {
        return Failed("inbox changed while its claim was being prepared");
      }
      assert !Receipted(s, intent.value);
      seen := s;
      o := Materialize(intent.value);
      KeepsTrans(old(s), seen, s, None);
      Grown(seen, s);
    }
  }
}
