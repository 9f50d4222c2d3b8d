/** When the payload of a claim survives a power loss.

    Between the directory barrier of a claim and the moment its claim name is durable, the inbox name is
    the only durable one.  A producer that overwrites it then can cost the claim its payload; overwriting
    it at any other time cannot.  Once the claim name is durable it keeps the payload until the claim's own
    receipt is bound, whatever the producer does. */
module DirectiveSurvival {
  import opened Results
  import opened Sets
  import opened Directives
  import opened DirectiveUniqueness

  /** The claim that still owes inode `j` its consumption. */
  predicate Owes(s: State, active: Option<Intent>, j: Ino)
  {
    active.Some? && active.value.ino == j && !Receipted(s, active.value)
  }

  /** The inbox name of `j` is shown, a claim is bound to `j`, and no payload name holds it yet. */
  predicate Exposed(s: State, j: Ino)
  {
    s.view.inbox == Some(j) &&
    (s.candidate == Some(j) || (Owes(s, s.view.root.active, j) && j !in Payloads(s.view.root)))
  }

  /** No enqueue of the run overwrites `j` while it is exposed. */
  ghost predicate Spared(run: seq<Action>, j: Ino)
    requires Legal(Start(), run)
  {
    run == [] ||
    var before := run[..|run| - 1];
    Spared(before, j) && (run[|run| - 1].Enqueue? ==> !Exposed(Run(Start(), before), j))
  }

  // ----- What every run keeps -----

  /** A claim name is durable before the inbox loses its own, and stays until the claim is consumed. */
  predicate ClaimNamed(s: State)
  {
    var v, d := s.view.root, s.disk.root;
    && (!s.fence.InboxFenced? ==> Payloads(v) <= Payloads(d))
    && (!s.fence.InboxFenced? && v.claim.Some? ==> d.claim == v.claim && d.active == v.active)
    && (d.active.Some? && !Receipted(s, d.active.value) && InoAt(d.claim) == Some(d.active.value.ino) ==>
          v.active == d.active && v.claim == d.claim)
  }

  /** What the producer overwrote is not shown in the inbox, and cannot be put back there. */
  predicate NotShownAgain(s: State)
  {
    var v := s.view;
    && (v.inbox.Some? ==> v.inbox.value !in s.withdrawn)
    && (forall j | j in s.withdrawn :: j < s.born)
    && (forall j | j in Payloads(v.root) && j in s.withdrawn ::
          v.inbox.Some? || (v.root.active.Some? && v.root.active.value.ino == j))
  }

  predicate Lasting(s: State)
  {
    Core(s) && ClaimNamed(s) && NotShownAgain(s) && DoubledDurably(s)
  }

  lemma StepKeepsClaimNamed(s: State, a: Action)
    requires Core(s) && ClaimNamed(s) && Enabled(s, a)
    ensures ClaimNamed(Step(s, a))
  {
    hide ClaimsKept, NamesKept, BornBefore;
  }

  lemma StepKeepsNotShownAgain(s: State, a: Action)
    requires Core(s) && NotShownAgain(s) && Enabled(s, a)
    ensures NotShownAgain(Step(s, a))
  {
    hide ClaimsKept, NamesKept;
  }

  lemma StepKeepsLasting(s: State, a: Action)
    requires Lasting(s) && Enabled(s, a)
    ensures Lasting(Step(s, a))
  {
    hide Core, ClaimNamed, NotShownAgain, DoubledDurably, Step, Enabled;
    StepKeepsCore(s, a);
    StepKeepsClaimNamed(s, a);
    StepKeepsNotShownAgain(s, a);
    StepKeepsDoubled(s, a);
  }

  lemma {:induction false} RunLasts(run: seq<Action>)
    requires Legal(Start(), run)
    ensures Lasting(Run(Start(), run))
  {
    if run == [] {
    } else {
      hide Lasting, Step, Enabled;
      RunLasts(run[..|run| - 1]);
      StepKeepsLasting(Run(Start(), run[..|run| - 1]), run[|run| - 1]);
    }
  }

  // ----- A durable claim name -----

  /** The disk shows the claim with its own payload in its claim name. */
  predicate HeldDurably(s: State, it: Intent)
  {
    s.disk.root.active == Some(it) && InoAt(s.disk.root.claim) == Some(it.ino)
  }

  lemma StepKeepsHeld(s: State, a: Action, it: Intent)
    requires Lasting(s) && HeldDurably(s, it) && Enabled(s, a)
    ensures HeldDurably(Step(s, a), it) || Receipted(s, it)
  {
    hide Core, NotShownAgain, DoubledDurably, Payloads;
  }

  lemma StepKeepsReceipted(s: State, a: Action, it: Intent)
    requires Core(s) && Receipted(s, it) && Enabled(s, a)
    ensures Receipted(Step(s, a), it)
  {
    hide ClaimsKept, NamesKept, Shaped;
  }

  /** From any reachable state, over any further enqueues, flushes, power losses and operations, a claim
      name that durably holds its payload keeps it until the claim's own receipt is bound. */
  lemma HeldUntilReceipted(run: seq<Action>, rest: seq<Action>, it: Intent)
    requires Legal(Start(), run) && HeldDurably(Run(Start(), run), it)
    requires Legal(Run(Start(), run), rest)
    ensures var t := Run(Run(Start(), run), rest); HeldDurably(t, it) || Receipted(t, it)
  {
    RunLasts(run);
    HeldFrom(Run(Start(), run), rest, it);
  }

  lemma {:induction false} HeldFrom(s: State, rest: seq<Action>, it: Intent)
    requires Lasting(s) && HeldDurably(s, it) && Legal(s, rest)
    ensures var t := Run(s, rest); Lasting(t) && (HeldDurably(t, it) || Receipted(t, it))
  {
    hide Lasting, HeldDurably, Step, Enabled;
    if rest == [] {
    } else {
      var before, a := rest[..|rest| - 1], rest[|rest| - 1];
      HeldFrom(s, before, it);
      var t := Run(s, before);
      StepKeepsLasting(t, a);
      if Receipted(t, it) {
        ReceiptedStays(t, a, it);
      } else {
        StepKeepsHeld(t, a, it);
      }
    }
  }

  lemma ReceiptedStays(s: State, a: Action, it: Intent)
    requires Lasting(s) && Receipted(s, it) && Enabled(s, a)
    ensures Receipted(Step(s, a), it)
  {
    hide Core, Step, Enabled, Receipted;
    StepKeepsReceipted(s, a, it);
  }

  // ----- Survival -----

  /** `j` is in its durable claim name; or it is durable in the inbox, nobody overwrote it, and the inbox
      may not lose it. */
  predicate Safe(s: State, j: Ino)
  {
    || InoAt(s.disk.root.claim) == Some(j)
    || (j !in s.withdrawn && s.disk.inbox == Some(j)
        && (s.view.inbox == Some(j) || (s.fence.InboxFenced? && InoAt(s.view.root.claim) == Some(j))))
  }

  predicate SafeWhileOwed(s: State, j: Ino)
  {
    && (s.candidate == Some(j) || Owes(s, s.view.root.active, j) || Owes(s, s.disk.root.active, j) ==> Safe(s, j))
    && (Owes(s, s.disk.root.active, j) ==> s.view.root.active == s.disk.root.active)
  }

  lemma StepKeepsSafe(s: State, a: Action, j: Ino)
    requires Lasting(s) && SafeWhileOwed(s, j) && Enabled(s, a)
    requires a.Enqueue? ==> !Exposed(s, j)
    ensures SafeWhileOwed(Step(s, a), j)
  {
    hide NamesKept, BornBefore, MismatchExplained;
  }

  lemma {:induction false} SparedIsSafe(run: seq<Action>, j: Ino)
    requires Legal(Start(), run) && Spared(run, j)
    ensures SafeWhileOwed(Run(Start(), run), j)
  {
    if run == [] {
    } else {
      hide SafeWhileOwed, Exposed, Lasting, Step, Enabled;
      var before := run[..|run| - 1];
      RunLasts(before);
      SparedIsSafe(before, j);
      StepKeepsSafe(Run(Start(), before), run[|run| - 1], j);
    }
  }

  /** Wherever a power loss strikes, the payload of a claim whose receipt is not bound is still under a
      name, with its bytes on disk, unless an enqueue overwrote it while it was exposed. */
  lemma PayloadSurvivesPowerLoss(run: seq<Action>)
    requires Legal(Start(), run)
    ensures var s := Run(Start(), run);
      var after := Step(s, Crash);
      after.view.root.active.Some? && !Receipted(s, after.view.root.active.value) ==>
        var j := after.view.root.active.value.ino;
        j in s.synced && (Spared(run, j) ==> j in Names(after.view))
  {
    RunKeeps(run);
    var s := Run(Start(), run);
    if s.disk.root.active.Some? && Spared(run, s.disk.root.active.value.ino) {
      SparedIsSafe(run, s.disk.root.active.value.ino);
    }
    hide Spared, Legal, Run;
  }

  /** A power loss has left a claim with no receipt and no payload. */
  predicate Lost(s: State, j: Ino)
  {
    s.view == s.disk && Owes(s, s.view.root.active, j) && j !in Names(s.view)
  }

  lemma CandidateLost(s: State, j: Ino) returns (t: State)
    requires Core(s) && s.candidate == Some(j) && s.view.inbox == Some(j)
    ensures Reaches(Step(s, Enqueue), t) && Lost(t, j)
  {
    hide NamesKept, Shaped, PayloadKept, MismatchExplained, Reaches;
    var first := Step(s, Enqueue);
    var cycle := AboveAll(s.receipts.Keys);
    ReachesSelf(first);
    t := Onward(first, first, WriteActive(cycle));
    t := Onward(first, t, FlushRoot);
    t := Onward(first, t, FlushInbox);
    t := Onward(first, t, Crash);
  }

  lemma SourceLost(s: State, j: Ino) returns (t: State)
    requires Core(s) && Exposed(s, j) && s.candidate != Some(j)
    ensures Reaches(Step(s, Enqueue), t) && Lost(t, j)
  {
    hide NamesKept, ClaimsKept, Reaches;
    var first := Step(s, Enqueue);
    ReachesSelf(first);
    if s.fence.RootFenced? {
      t := Onward(first, first, FlushInbox);
      t := Onward(first, t, FlushRoot);
    } else {
      t := Onward(first, first, FlushRoot);
      t := Onward(first, t, FlushInbox);
    }
    t := Onward(first, t, Crash);
  }

  /** The condition is exact: from every reachable state, overwriting an exposed inode can be followed by
      a power loss that leaves its claim without a payload. */
  lemma OverwritingAnExposedNameLosesIt(run: seq<Action>, j: Ino) returns (t: State)
    requires Legal(Start(), run) && Exposed(Run(Start(), run), j)
    ensures Reaches(Step(Run(Start(), run), Enqueue), t) && Lost(t, j)
  {
    RunLasts(run);
    var s := Run(Start(), run);
    hide Legal, Run, Core, Reaches, Lost;
    if s.candidate == Some(j) {
      t := CandidateLost(s, j);
    } else {
      t := SourceLost(s, j);
    }
  }

  /** The producer needs no more than to replace its directive between two fsyncs of the claim. */
  lemma LossIsReachable() returns (t: State)
    ensures Reaches(Start(), t) && Lost(t, 0)
  {
    hide Reaches;
    var s := Start();
    ReachesSelf(s);
    t := Onward(s, s, Enqueue);
    t := Onward(s, t, FlushInbox);
    t := Onward(s, t, SyncSource);
    t := Onward(s, t, Prepare);
    t := Onward(s, t, WriteActive(1));
    t := Onward(s, t, FlushRoot);
    t := Onward(s, t, Enqueue);
    t := Onward(s, t, FlushInbox);
    t := Onward(s, t, Crash);
  }

  /** A directive can be left in the claim name of another, with a third one queued: the producer replaces its
      directive once before the source is renamed and once before it is put back. */
  lemma MistakeIsReachable() returns (t: State)
    ensures Reaches(Start(), t) && Settled(t) && t.view.inbox == Some(2)
    ensures var r := t.view.root; r.active.Some? && !Receipted(t, r.active.value) && r.active.value.ino == 0
                                  && InoAt(r.claim) == Some(1)
  {
    hide Reaches;
    var s := Start();
    ReachesSelf(s);
    t := Onward(s, s, Enqueue);
    t := Onward(s, t, FlushInbox);
    t := Onward(s, t, SyncSource);
    t := Onward(s, t, Prepare);
    t := Onward(s, t, WriteActive(1));
    t := Onward(s, t, FlushRoot);
    t := Onward(s, t, Enqueue);
    t := Onward(s, t, TakeSource);
    t := Onward(s, t, FlushRoot);
    t := Onward(s, t, FlushInbox);
    t := Onward(s, t, Enqueue);
  }

  // ----- Every durable directive -----

  /** An inode shown somewhere loses its last durable name only once its own receipt is bound. */
  lemma OnlyReceiptedInodesLeaveTheDisk(s: State, a: Action, j: Ino)
    requires Lasting(s) && Enabled(s, a)
    requires j in Names(s.disk) && j !in Names(Step(s, a).disk)
    ensures Released(s, j) || j !in Names(s.view)
  {
    hide ClaimsKept, Shaped, DoubledDurably;
  }

  /** The producer never replaces `j` in the inbox. */
  ghost predicate NeverReplaced(run: seq<Action>, j: Ino)
    requires Legal(Start(), run)
  {
    run == [] ||
    var before := run[..|run| - 1];
    NeverReplaced(before, j) && (run[|run| - 1].Enqueue? ==> Run(Start(), before).view.inbox != Some(j))
  }

  ghost predicate Consumed(s: State, j: Ino)
  {
    exists c :: c in s.receipts && s.receipts[c].Some? && s.receipts[c].value.ino == j
  }

  lemma {:induction false} NeverReplacedIsNotWithdrawn(run: seq<Action>, j: Ino)
    requires Legal(Start(), run) && NeverReplaced(run, j)
    ensures j !in Run(Start(), run).withdrawn
  {
    hide Enabled;
    if run == [] {
    } else {
      NeverReplacedIsNotWithdrawn(run[..|run| - 1], j);
    }
  }

  lemma StepKeepsConsumed(s: State, a: Action, j: Ino)
    requires Consumed(s, j) && Enabled(s, a)
    ensures Consumed(Step(s, a), j)
  {
    var c :| c in s.receipts && s.receipts[c].Some? && s.receipts[c].value.ino == j;
    assert c in Step(s, a).receipts && Step(s, a).receipts[c] == s.receipts[c];
  }

  lemma StepKeepsDurable(s: State, a: Action, j: Ino)
    requires Lasting(s) && Enabled(s, a) && j in Names(s.disk) && j !in s.withdrawn
    ensures j in Names(Step(s, a).disk) || Consumed(Step(s, a), j)
  {
    hide ClaimsKept, Shaped, DoubledDurably, ClaimNamed, NotShownAgain;
    if j !in Names(Step(s, a).disk) {
      OnlyReceiptedInodesLeaveTheDisk(s, a, j);
      assert Released(s, j) && s.disk.root.active.value.cycle in Step(s, a).receipts;
    }
  }

  /** Over any run, a directive that was durable after some prefix stays durable to the end, unless it was
      consumed by a receipt of its own or its producer replaced it. */
  lemma {:induction false} DurableUntilConsumed(run: seq<Action>, n: nat, j: Ino)
    requires n <= |run| && Legal(Start(), run) && Legal(Start(), run[..n])
    requires j in Names(Run(Start(), run[..n]).disk) && NeverReplaced(run, j)
    ensures var t := Run(Start(), run); j in Names(t.disk) || Consumed(t, j)
    decreases |run|
  {
    hide Lasting, Step, Enabled, Names, Consumed;
    if n == |run| {
      assert run[..n] == run;
    } else {
      var before, a := run[..|run| - 1], run[|run| - 1];
      assert before[..n] == run[..n];
      DurableUntilConsumed(before, n, j);
      RunLasts(before);
      NeverReplacedIsNotWithdrawn(before, j);
      var t := Run(Start(), before);
      if Consumed(t, j) {
        StepKeepsConsumed(t, a, j);
      } else {
        StepKeepsDurable(t, a, j);
      }
    }
  }
}
