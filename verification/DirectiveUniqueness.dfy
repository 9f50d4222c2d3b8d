/** When an inode is consumed at most once.

    A power loss may bring the inbox name of a claimed inode back.  If the producer overwrites that name
    before the recovery has retired it, without making the overwriting durable, a second power loss brings
    it back once more, after the claim is gone, and the same inode is claimed and consumed again.  That is
    the only way: in every run without such an overwriting each inode is consumed at most once, and from
    every reachable state where one is possible the second consumption can follow. */
module DirectiveUniqueness {
  import opened Results
  import opened Sets
  import opened Directives

  /** The inbox shows a second name of the inode the active claim already holds. */
  predicate Restored(s: State)
  {
    s.view.root.active.Some? && s.view.inbox == Some(s.view.root.active.value.ino)
    && InoAt(s.view.root.claim) == s.view.inbox
  }

  /** No enqueue of the run overwrites a restored name. */
  ghost predicate Polite(run: seq<Action>)
    requires Legal(Start(), run)
  {
    run == [] ||
    var before := run[..|run| - 1];
    Polite(before) && (run[|run| - 1].Enqueue? ==> !Restored(Run(Start(), before)))
  }

  ghost predicate Once(s: State)
  {
    forall b, c | b in s.receipts && c in s.receipts && b != c && s.receipts[b].Some? && s.receipts[c].Some? ::
      s.receipts[b].value.ino != s.receipts[c].value.ino
  }

  // ----- Polite runs -----

  /** Where a consumed inode may still be seen: as a payload of its own claim, and in the inbox only while
      that claim still holds it. */
  predicate ShownBy(s: State, it: Intent, fs: Fs)
  {
    && (it.ino in Payloads(fs.root) ==> fs.root.active == Some(it))
    && (fs.root.active.Some? && !Receipted(s, fs.root.active.value) ==> fs.root.active.value.ino != it.ino)
    && (Some(it.ino) in {s.view.inbox, s.disk.inbox} ==>
          fs.root.active == Some(it) && InoAt(fs.root.claim) == Some(it.ino))
  }

  predicate Spent(s: State, c: int)
  {
    c in s.receipts && s.receipts[c].Some? ==>
      var it := s.receipts[c].value;
      ShownBy(s, it, s.view) && ShownBy(s, it, s.disk) && s.candidate != Some(it.ino) && it.ino < s.born
  }

  /** An overwritten inode is shown again only in a claim that stays stuck until the next power loss. */
  predicate Untaken(s: State)
  {
    var v := s.view;
    && (v.inbox.Some? ==> v.inbox.value !in s.withdrawn)
    && (forall j | j in s.withdrawn :: j < s.born)
    && (forall j | j in Payloads(v.root) && j in s.withdrawn ::
          v.inbox.Some? && v.root.active.Some? && v.root.active.value.ino != j)
  }

  ghost predicate AllSpent(s: State)
  {
    forall c :: Spent(s, c)
  }

  lemma StepKeepsUntaken(s: State, a: Action)
    requires Core(s) && Untaken(s) && AllSpent(s) && Enabled(s, a)
    requires a.Enqueue? ==> !Restored(s)
    ensures Untaken(Step(s, a))
  {
    hide ClaimsKept, NamesKept;
    if a.Enqueue? && s.view.root.active.Some? {
      assert Spent(s, s.view.root.active.value.cycle);
    }
  }

  lemma EntombedOutOfTheInbox(s: State, a: Action)
    requires Core(s) && Untaken(s) && Enabled(s, a) && a.Entomb?
    ensures s.disk.inbox != Some(s.view.root.active.value.ino)
  {
    hide ClaimsKept;
    assert s.view.root.active.value.ino in Payloads(s.view.root);
  }

  lemma {:induction false} StepKeepsSpent(s: State, a: Action, c: int)
    requires Core(s) && Untaken(s) && AllSpent(s) && Enabled(s, a)
    ensures Spent(Step(s, a), c)
  {
    hide NamesKept, Untaken, PayloadKept, MismatchExplained;
    assert Spent(s, c);
    if a.Entomb? {
      EntombedOutOfTheInbox(s, a);
    }
  }

  lemma StepKeepsOnce(s: State, a: Action)
    requires Core(s) && AllSpent(s) && Once(s) && Enabled(s, a)
    ensures Once(Step(s, a))
  {
    hide ClaimsKept, NamesKept, Shaped;
    if a.Bind? {
      var it := s.view.root.active.value;
      forall c | c in s.receipts && s.receipts[c].Some? ensures s.receipts[c].value.ino != it.ino {
        assert Spent(s, c);
      }
    }
  }

  lemma {:induction false} PoliteRunKeeps(run: seq<Action>)
    requires Legal(Start(), run) && Polite(run)
    ensures var s := Run(Start(), run); Core(s) && Untaken(s) && AllSpent(s) && Once(s)
  {
    hide Core, Untaken, Spent, Step, Enabled, Restored;
    if run == [] {
      PoliteFromTheStart();
    } else {
      var before, a := run[..|run| - 1], run[|run| - 1];
      var s := Run(Start(), before);
      PoliteRunKeeps(before);
      StepKeepsCore(s, a);
      StepKeepsUntaken(s, a);
      StepKeepsOnce(s, a);
      forall c ensures Spent(Step(s, a), c) {
        StepKeepsSpent(s, a, c);
      }
    }
  }

  lemma PoliteFromTheStart()
    ensures var s := Start(); Core(s) && Untaken(s) && AllSpent(s) && Once(s)
  {
  }

  /** Over every interleaving of claims, enqueues, completions and power losses that overwrites no
      restored name, no inode is bound by the receipts of two cycles. */
  lemma ConsumedAtMostOnce(run: seq<Action>, b: int, c: int)
    requires Legal(Start(), run) && Polite(run)
    requires var r := Run(Start(), run).receipts; b in r && c in r && r[b].Some? && r[c].Some?
    requires b != c
    ensures var r := Run(Start(), run).receipts; r[b].value.ino != r[c].value.ino
  {
    PoliteRunKeeps(run);
  }

  // ----- What the first impolite enqueue opens -----

  /** A restored name is durable and nothing is in flight beside it. */
  predicate DoubledDurably(s: State)
  {
    forall j | s.view.inbox == Some(j) && j in Payloads(s.view.root) ::
      s.disk.inbox == Some(j) && s.fence.NoFence? && !s.inboxDirty
  }

  /** A quarantined stranger never stands beside a restored name. */
  predicate NoStranger(s: State, fs: Fs)
  {
    fs.root.active.Some? && fs.root.dup.Some? && fs.root.dup.value.ino != fs.root.active.value.ino ==>
      Some(fs.root.active.value.ino) !in {s.view.inbox, s.disk.inbox}
  }

  lemma StepKeepsDoubled(s: State, a: Action)
    requires Core(s) && DoubledDurably(s) && Enabled(s, a)
    ensures DoubledDurably(Step(s, a))
  {
    hide ClaimsKept, NamesKept;
  }

  lemma StepKeepsNoStranger(s: State, a: Action)
    requires Core(s) && Untaken(s) && NoStranger(s, s.view) && NoStranger(s, s.disk) && Enabled(s, a)
    ensures var t := Step(s, a); NoStranger(t, t.view) && NoStranger(t, t.disk)
  {
    hide ClaimsKept, PayloadsKept;
    if a.Quarantine? {
      assert s.view.root.active.value.ino in Payloads(s.view.root);
    }
  }

  lemma {:induction false} PoliteRunKeepsMore(run: seq<Action>)
    requires Legal(Start(), run) && Polite(run)
    ensures var s := Run(Start(), run); DoubledDurably(s) && NoStranger(s, s.view) && NoStranger(s, s.disk)
  {
    hide Core, Untaken, Spent, Once, Step, Enabled, Restored;
    if run == [] {
    } else {
      var before, a := run[..|run| - 1], run[|run| - 1];
      PoliteRunKeeps(before);
      PoliteRunKeepsMore(before);
      hide DoubledDurably, NoStranger;
      StepKeepsDoubled(Run(Start(), before), a);
      StepKeepsNoStranger(Run(Start(), before), a);
    }
  }

  ghost predicate Reaches(s: State, t: State)
  {
    exists rest :: Legal(s, rest) && Run(s, rest) == t
  }

  lemma ReachesSelf(s: State)
    ensures Reaches(s, s)
  {
    assert Legal(s, []) && Run(s, []) == s;
  }

  /** Extends a run to `t` by one step. */
  lemma Onward(s: State, t: State, a: Action) returns (u: State)
    requires Reaches(s, t) && Enabled(t, a)
    ensures u == Step(t, a) && Reaches(s, u)
  {
    hide Step, Enabled;
    var rest :| Legal(s, rest) && Run(s, rest) == t;
    LegalPrefix(s, rest, a);
    u := Step(t, a);
  }

  /** An active claim in its own claim name, nothing in flight, and the disk still showing its inode in
      the inbox though the view shows another. */
  predicate Overwritten(s: State, it: Intent)
  {
    && Settled(s) && s.view.root == Root(Some(it), Some(Entry(it.id, it.ino)), None, None)
    && s.disk.inbox == Some(it.ino) && s.view.inbox != s.disk.inbox
  }

  lemma ToOverwritten(s: State) returns (t: State)
    requires Core(s) && Restored(s) && DoubledDurably(s) && NoStranger(s, s.view)
    ensures Reaches(Step(s, Enqueue), t)
    ensures Overwritten(t, s.view.root.active.value) && t.receipts == s.receipts
  {
    hide ClaimsKept, NamesKept, Reaches;
    var it := s.view.root.active.value;
    assert it.ino in Payloads(s.view.root);
    var first := Step(s, Enqueue);
    ReachesSelf(first);
    t := Onward(first, first, FlushRoot);
    if t.view.root.dup.Some? {
      t := Onward(first, t, DropDuplicate);
      t := Onward(first, t, FlushRoot);
    }
  }

  /** The cleanup of a completed claim runs to its end without noticing the durable name. */
  lemma ToCleaned(first: State, s: State, it: Intent) returns (t: State)
    requires Reaches(first, s) && Overwritten(s, it) && Receipted(s, it)
    ensures Reaches(first, t)
    ensures Settled(t) && t.view.root == EMPTY_ROOT && t.disk.inbox == Some(it.ino) && t.receipts == s.receipts
  {
    hide Reaches;
    t := Onward(first, s, Entomb);
    t := Onward(first, t, FlushRoot);
    t := Onward(first, t, DropTomb);
    t := Onward(first, t, FlushRoot);
    t := Onward(first, t, Acknowledge);
    t := Onward(first, t, FlushAcks);
    t := Onward(first, t, DropActive);
    t := Onward(first, t, FlushRoot);
  }

  /** After the second power loss the inode is claimed, and its receipt bound, once more. */
  lemma ToSecondReceipt(first: State, s: State, j: Ino, cycle: int) returns (t: State)
    requires Reaches(first, s) && Settled(s) && s.view.root == EMPTY_ROOT && s.disk.inbox == Some(j)
    requires cycle !in s.receipts
    ensures Reaches(first, t)
    ensures exists again: Intent :: again.ino == j && t.receipts == s.receipts[cycle := Some(again)]
  {
    hide Reaches;
    t := Onward(first, s, Crash);
    t := Onward(first, t, SyncSource);
    t := Onward(first, t, Prepare);
    t := Onward(first, t, WriteActive(cycle));
    t := Onward(first, t, FlushRoot);
    t := Onward(first, t, TakeSource);
    t := Onward(first, t, FlushRoot);
    t := Onward(first, t, FlushInbox);
    var again := t.view.root.active.value;
    t := Onward(first, t, Bind);
    assert again.ino == j && t.receipts == s.receipts[cycle := Some(again)];
  }

  lemma ActiveCycleIsFree(s: State)
    requires Core(s)
    ensures CycleFree(s, s.view.root.active)
  {
    hide ClaimsKept, NamesKept;
  }

  /** The condition is exact: from every state a polite run reaches, the first overwriting of a restored
      name can be followed by steps after which two cycles' receipts bind the same inode. */
  lemma OverwritingARestoredNameConsumesTwice(run: seq<Action>) returns (t: State)
    requires Legal(Start(), run) && Polite(run) && Restored(Run(Start(), run))
    ensures Reaches(Step(Run(Start(), run), Enqueue), t) && !Once(t)
  {
    var s := Run(Start(), run);
    var it := s.view.root.active.value;
    var first := Step(s, Enqueue);
    PoliteRunKeeps(run);
    PoliteRunKeepsMore(run);
    ActiveCycleIsFree(s);
    t := ToOverwritten(s);
    hide Reaches, Core, DoubledDurably, NoStranger, Untaken, Spent, Legal, Polite;
    if !Receipted(t, it) {
      t := Onward(first, t, Bind);
    }
    assert Overwritten(t, it) && Receipted(t, it);
    var done := ToCleaned(first, t, it);
    var cycle := AboveAll(done.receipts.Keys);
    t := ToSecondReceipt(first, done, it.ino, cycle);
    assert it.cycle in t.receipts && cycle in t.receipts && it.cycle != cycle;
  }

  lemma PoliteOnward(run: seq<Action>, s: State, a: Action) returns (longer: seq<Action>, t: State)
    requires Legal(Start(), run) && Polite(run) && s == Run(Start(), run) && Enabled(s, a)
    requires a.Enqueue? ==> !Restored(s)
    ensures Legal(Start(), longer) && Polite(longer) && t == Run(Start(), longer) == Step(s, a)
  {
    LegalPrefix(Start(), run, a);
    longer, t := run + [a], Step(s, a);
    assert longer[..|run|] == run;
    hide Step, Enabled, Restored;
  }

  /** Restored names do occur: one power loss between the two fsyncs of taking the source is enough. */
  lemma {:induction false} RestoredIsReachable() returns (run: seq<Action>)
    ensures Legal(Start(), run) && Polite(run) && Restored(Run(Start(), run))
  {
    hide Legal, Run, Polite;
    assert Legal(Start(), []) && Polite([]) && Run(Start(), []) == Start() by { NothingRun(); }
    var s := Start();
    run, s := PoliteOnward([], s, Enqueue);
    run, s := PoliteOnward(run, s, FlushInbox);
    run, s := PoliteOnward(run, s, SyncSource);
    run, s := PoliteOnward(run, s, Prepare);
    run, s := PoliteOnward(run, s, WriteActive(1));
    run, s := PoliteOnward(run, s, FlushRoot);
    run, s := PoliteOnward(run, s, TakeSource);
    run, s := PoliteOnward(run, s, FlushRoot);
    run, s := PoliteOnward(run, s, Crash);
  }

  lemma NothingRun()
    ensures Legal(Start(), []) && Polite([]) && Run(Start(), []) == Start()
  {
  }
}
