/** What rmdir removes.

    rmdir looks its name up once.  If the name has come to point at another inode when the entry is
    removed, rmdir tries again with that inode, whatever its kind.  It gives back two links of what it
    ends up with, so link counts are right as long as that is a directory. */
module RmdirTargets {
  import opened Types
  import opened Access
  import opened Metadata
  import opened Coordinator
  import opened Cluster
  import opened ClusterRuns
  import opened Invariant
  import opened LinkLedger
  import opened TransactionSteps
  import opened LockSteps
  import opened Safety
  import opened LinkLoss
  import opened RenameTheorems
  import opened RmdirRace

  /** The inode whose entry an rmdir has removed, and that it has still to delete. */
  function RmdirOwes(t: Txn): Option<Inode> {
    match t
    case RemovalUnlocking(RemoveDir, _, _, _, _, _, Drop(i)) => Some(i)
    case RmdirChecking(i) => Some(i)
    case RemovalDropping(RemoveDir, i) => Some(i)
    case _ => None
  }

  ghost predicate OwesDirectory(m: Meta, t: Txn) {
    RmdirOwes(t).Some? && RmdirOwes(t).value in m.attrs ==> m.attrs[RmdirOwes(t).value].kind == Directory
  }

  /** What every rmdir has removed is a directory. */
  ghost predicate DirectoriesOwed(s: Sys) {
    forall t :: t in s.txns ==> OwesDirectory(s.meta, s.txns[t])
  }

  /** The next step of an rmdir removes the entry of something else. */
  predicate TakesFile(s: Sys, l: Label) {
    && l.TxnStep? && l.t in s.txns
    && match s.txns[l.t]
       case RemovalTrying(RemoveDir, p, n, c, i, _, uid) =>
         && p in s.meta.attrs && (p, n) in s.meta.dir && s.meta.dir[(p, n)].inode == i
         && i in s.meta.attrs && s.meta.attrs[i].kind != Directory
         && Allows(s.meta.attrs[p], c, W_OK) && !StickyForbids(s.meta.attrs[p], uid, c)
       case _ => false
  }

  // ------------------------------------------------------------------ kinds never change

  /** A step never changes the kind of an inode that stays. */
  lemma StepKeepsKinds(s: Sys, l: Label, i: Inode)
    requires FreshOk(s) && Enabled(s, l) && i in s.meta.attrs && i in Apply(s, l).meta.attrs
    ensures Apply(s, l).meta.attrs[i].kind == s.meta.attrs[i].kind
  {
    hide FreshOk, CommitMeta, ActionOf, Resume, ShowsHeldLock, MustWait, KernelValidated, SpoiledAfter;
    if l.TxnStep? && ActionOf(s.txns[l.t], l.choice).Propose? {
      var r := ActionOf(s.txns[l.t], l.choice).request;
      if r.CreateInode? {
        GroupKnown(s, l.t, l.choice);
      }
      if i in Execute(s, r, l.now).meta.attrs {
        CommitKeepsKinds(TablesFor(s, r), r, l.now, i);
      }
    } else if l.Env? && i in CommitMeta(s.meta, l.request, l.now).meta.attrs {
      CommitKeepsKinds(s.meta, l.request, l.now, i);
    }
  }

  // ------------------------------------------------------------------ which steps take something else

  /** Only the removal of an entry gives an rmdir something to delete. */
  lemma OwedByReply(t: Txn, choice: Inode, o: Outcome)
    requires Resume(t, choice, o).Go?
    ensures var owed := RmdirOwes(Resume(t, choice, o).txn);
            || owed.None? || owed == RmdirOwes(t)
            || (t.RemovalTrying? && t.job == RemoveDir && owed.Some? && o == Ok(RemovedInode(owed.value, true)))
  {
    hide ResumeRename;
    if t.Renaming? {
      RenameOwesNothing(t.args, t.pc, choice, o);
    }
  }

  lemma RenameOwesNothing(a: RenameArgs, pc: RenamePc, choice: Inode, o: Outcome)
    ensures var next := ResumeRename(a, pc, choice, o); next.Go? ==> next.txn.Renaming? || next.txn.Finished?
  {}

  /** rmdir's removal of an entry: it takes something else exactly if it then owes something else. */
  lemma TryEffect(s: Sys, l: Label)
    requires Enabled(s, l) && l.TxnStep? && l.t in s.txns && s.txns[l.t].RemovalTrying? && s.txns[l.t].job == RemoveDir
    ensures var txn, s' := s.txns[l.t], Apply(s, l); var k := (txn.parent, txn.name);
            && l.t in s'.txns && s'.meta.attrs.Keys == s.meta.attrs.Keys
            && (match RmdirOwes(s'.txns[l.t])
                case Some(i) =>
                  && i == txn.inode && k in s.meta.dir && i == s.meta.dir[k].inode
                  && (i in s.meta.attrs ==> (TakesFile(s, l) <==> s.meta.attrs[i].kind != Directory))
                case None => !TakesFile(s, l))
  {
    hide Enabled, Apply, CommitMeta, RemoveLinkStep, TakesFile, RmdirOwes, Resume;
    var txn := s.txns[l.t];
    var known := Some(InodeUidPair(txn.inode, txn.ownerUid));
    RemovalCommits(s, l);
    RemovalOutcome(s, l, RemoveLinkStep(s.meta, txn.parent, txn.name, known, txn.context, l.now));
  }

  lemma RemovalCommits(s: Sys, l: Label)
    requires Enabled(s, l) && l.TxnStep? && l.t in s.txns && s.txns[l.t].RemovalTrying?
    ensures var txn := s.txns[l.t];
            var known := Some(InodeUidPair(txn.inode, txn.ownerUid));
            var step := RemoveLinkStep(s.meta, txn.parent, txn.name, known, txn.context, l.now);
            && Resume(txn, l.choice, step.outcome).Go?
            && Apply(s, l) == s.(meta := step.meta, txns := s.txns[l.t := Resume(txn, l.choice, step.outcome).txn])
  {
    hide Apply, Allows, Sticky, CommitOwner, CommitAttr, CommitXattr, CommitInode, ResumeRename;
    var txn := s.txns[l.t];
    assert SpoiledAfter(s, l.t) == s.spoiled;
    Executed(s, l.t, l.now, l.newLock, l.choice,
             RemoveLink(txn.parent, txn.name, Some(InodeUidPair(txn.inode, txn.ownerUid)), None, txn.context));
  }

  lemma RemovalOutcome(s: Sys, l: Label, step: Step)
    requires l.TxnStep? && l.t in s.txns && s.txns[l.t].RemovalTrying? && s.txns[l.t].job == RemoveDir
    requires var txn := s.txns[l.t];
             var known := Some(InodeUidPair(txn.inode, txn.ownerUid));
             && step == RemoveLinkStep(s.meta, txn.parent, txn.name, known, txn.context, l.now)
             && Resume(txn, l.choice, step.outcome).Go?
    ensures var txn := s.txns[l.t]; var k := (txn.parent, txn.name);
            && step.meta.attrs.Keys == s.meta.attrs.Keys
            && (match RmdirOwes(Resume(txn, l.choice, step.outcome).txn)
                case Some(i) =>
                  && i == txn.inode && k in s.meta.dir && i == s.meta.dir[k].inode
                  && (i in s.meta.attrs ==> (TakesFile(s, l) <==> s.meta.attrs[i].kind != Directory))
                case None => !TakesFile(s, l))
  {
    hide Allows, Sticky;
  }

  lemma TryOwedIff(s: Sys, l: Label)
    requires Enabled(s, l) && l.TxnStep? && l.t in s.txns && s.txns[l.t].RemovalTrying? && s.txns[l.t].job == RemoveDir
    requires FreshOk(s) && s.txns[l.t].inode in s.meta.attrs
    ensures l.t in Apply(s, l).txns
    ensures OwesDirectory(Apply(s, l).meta, Apply(s, l).txns[l.t]) <==> !TakesFile(s, l)
  {
    hide FreshOk, Enabled, Apply, TakesFile, RmdirOwes;
    TryEffect(s, l);
    StepKeepsKinds(s, l, s.txns[l.t].inode);
  }

  lemma OthersOwed(s: Sys, l: Label, u: nat)
    requires Inv(s) && Enabled(s, l) && u in s.txns && OwesDirectory(s.meta, Now(s, u))
    ensures OwesDirectory(Apply(s, l).meta, Now(s, u))
  {
    hide Inv, Enabled, Apply, RmdirOwes, FreshOk, Retired, SpoiledOk, Knows;
    var owed := RmdirOwes(s.txns[u]);
    if owed.Some? {
      InvParts(s, u);
      OwedIsKnown(s, u);
      if owed.value in s.meta.attrs {
        if owed.value in Apply(s, l).meta.attrs {
          StepKeepsKinds(s, l, owed.value);
        }
      } else {
        RetiredStays(s, l, owed.value);
        assert owed.value !in Apply(s, l).meta.attrs by { RetiredIsGone(Apply(s, l), owed.value); }
      }
    }
  }

  /** What an rmdir has removed is there, or has been deleted. */
  lemma OwedIsKnown(s: Sys, u: nat)
    requires FreshOk(s) && SpoiledOk(s) && u in s.txns && TxnOk(s.meta, s.txns[u], s.spoiled)
    requires RmdirOwes(s.txns[u]).Some?
    ensures RmdirOwes(s.txns[u]).value in s.meta.attrs || Retired(s, RmdirOwes(s.txns[u]).value)
  {
    hide Knows, FreshOk;
  }

  lemma RetiredIsGone(s: Sys, i: Inode)
    requires Retired(s, i)
    ensures i !in s.meta.attrs
  {}

  /** A transaction's own step, unless it removes an entry for rmdir. */
  lemma OwnOwed(s: Sys, l: Label)
    requires Inv(s) && Enabled(s, l) && l.TxnStep? && l.t in s.txns && OwesDirectory(s.meta, s.txns[l.t])
    requires !(s.txns[l.t].RemovalTrying? && s.txns[l.t].job == RemoveDir)
    ensures l.t in Apply(s, l).txns && OwesDirectory(Apply(s, l).meta, Apply(s, l).txns[l.t])
  {
    hide Inv, OwesDirectory, Enabled, Apply, RmdirOwes;
    OthersOwed(s, l, l.t);
    OwnNext(s, l);
    SameDebt(Apply(s, l).meta, s.txns[l.t], Apply(s, l).txns[l.t]);
  }

  lemma InvParts(s: Sys, t: nat)
    requires Inv(s) && t in s.txns
    ensures FreshOk(s) && SpoiledOk(s) && TxnOk(s.meta, s.txns[t], s.spoiled)
  {}

  lemma OwnNext(s: Sys, l: Label)
    requires Enabled(s, l) && l.TxnStep? && !(s.txns[l.t].RemovalTrying? && s.txns[l.t].job == RemoveDir)
    ensures l.t in Apply(s, l).txns
    ensures var owed := RmdirOwes(Apply(s, l).txns[l.t]); owed.None? || owed == RmdirOwes(s.txns[l.t])
  {
    hide ActionOf, Resume, Execute, RmdirOwes, GetAttributes, LookupOutcome, ShowsHeldLock, MustWait, KernelValidated;
    var txn := s.txns[l.t];
    forall o: Outcome | Resume(txn, l.choice, o).Go?
      ensures var owed := RmdirOwes(Resume(txn, l.choice, o).txn); owed.None? || owed == RmdirOwes(txn)
    {
      OwedByReply(txn, l.choice, o);
    }
  }

  lemma SameDebt(m: Meta, t: Txn, t': Txn)
    requires OwesDirectory(m, t) && (RmdirOwes(t').None? || RmdirOwes(t') == RmdirOwes(t))
    ensures OwesDirectory(m, t')
  {}

  lemma OwedBreaksNothing(s: Sys, l: Label)
    requires DirectoriesOwed(s)
    ensures !BreaksLinks(s, l)
  {}

  /** What rmdirs owe stays directories if and only if no step removes the entry of something else for
      an rmdir. */
  lemma OwedIffNoFileTaken(s: Sys, l: Label)
    requires Inv(s) && Enabled(s, l) && DirectoriesOwed(s)
    ensures DirectoriesOwed(Apply(s, l)) <==> !TakesFile(s, l)
  {
    hide Inv, Enabled, Apply, OwesDirectory, RmdirOwes, TakesFile;
    var s' := Apply(s, l);
    TxnsOfStep(s, l);
    forall u | u in s.txns && !(l.TxnStep? && l.t == u)
      ensures u in s'.txns && s'.txns[u] == s.txns[u] && OwesDirectory(s'.meta, s'.txns[u])
    {
      OthersOwed(s, l, u);
    }
    if l.TxnStep? {
      OwnOwedIff(s, l);
    }
  }

  /** A step keeps the invariant with nothing excepted, and all that rmdir owes being directories, if and
      only if it does not remove the entry of something else for rmdir. */
  lemma KeptIffNoFileTaken(s: Sys, l: Label)
    requires Exact(s) && Enabled(s, l) && DirectoriesOwed(s)
    ensures Exact(Apply(s, l)) && DirectoriesOwed(Apply(s, l)) <==> !TakesFile(s, l)
  {
    hide Inv, Enabled, Apply, OwesDirectory, RmdirOwes, BreaksLinks, Exact;
    var s0 := s.(spoiled := {});
    HistoryUnread(s, l, {});
    OwedBreaksNothing(s, l);
    KeptIffNoLinkBroken(s, l);
    assert Inv(s0) by { ExactIs(s); }
    assert DirectoriesOwed(s0) && (TakesFile(s0, l) <==> TakesFile(s, l));
    OwedIffNoFileTaken(s0, l);
    assert DirectoriesOwed(Apply(s0, l)) <==> DirectoriesOwed(Apply(s, l));
  }

  lemma ExactIs(s: Sys)
    requires Exact(s)
    ensures Inv(s.(spoiled := {}))
  {}

  /** Every step leaves the other transactions where they are. */
  lemma TxnsOfStep(s: Sys, l: Label)
    requires Enabled(s, l)
    ensures var s' := Apply(s, l);
            && (forall u :: u in s.txns && !(l.TxnStep? && l.t == u) ==> u in s'.txns && s'.txns[u] == s.txns[u])
            && (forall u :: u in s'.txns && u !in s.txns ==> OwesDirectory(s'.meta, s'.txns[u]))
            && (l.TxnStep? ==> l.t in s.txns)
            && (TakesFile(s, l) ==> l.TxnStep?)
  {
    hide ActionOf, Resume, Execute, GetAttributes, LookupOutcome, ShowsHeldLock, MustWait, KernelValidated,
         CommitMeta, SpoiledAfter;
  }

  lemma OwnOwedIff(s: Sys, l: Label)
    requires Inv(s) && Enabled(s, l) && l.TxnStep? && l.t in s.txns && OwesDirectory(s.meta, s.txns[l.t])
    ensures l.t in Apply(s, l).txns
    ensures OwesDirectory(Apply(s, l).meta, Apply(s, l).txns[l.t]) <==> !TakesFile(s, l)
  {
    hide Inv, FreshOk, SpoiledOk, Enabled, Apply, OwesDirectory, RmdirOwes;
    if s.txns[l.t].RemovalTrying? && s.txns[l.t].job == RemoveDir {
      InvParts(s, l.t);
      TryOwedIff(s, l);
    } else {
      OwnOwed(s, l);
    }
  }

  // ------------------------------------------------------------------ runs

  /** No rmdir removes the entry of anything but a directory. */
  ghost predicate RemovesDirectories(s: Sys, labels: seq<Label>)
    decreases |labels|
  {
    labels == [] || (!TakesFile(s, labels[0]) && RemovesDirectories(Apply(s, labels[0]), labels[1..]))
  }

  /** Then no links are lost. */
  lemma {:induction false} DirectoriesRunIsCareful(s: Sys, labels: seq<Label>)
    requires Inv(s) && DirectoriesOwed(s) && ValidRun(s, labels) && RemovesDirectories(s, labels)
    ensures Careful(s, labels) && DirectoriesOwed(Run(s, labels))
    decreases |labels|
  {
    hide Inv, Enabled, Apply, DirectoriesOwed, BreaksLinks, TakesFile;
    if labels != [] {
      OwedBreaksNothing(s, labels[0]);
      StepKeepsInv(s, labels[0]);
      OwedIffNoFileTaken(s, labels[0]);
      DirectoriesRunIsCareful(Apply(s, labels[0]), labels[1..]);
    }
  }

  /** In a run in which rmdir removes only entries of directories, every link count is right. */
  lemma RemovingDirectoriesKeepsInv(s: Sys, labels: seq<Label>)
    requires Initial(s) && ValidRun(s, labels) && RemovesDirectories(s, labels)
    ensures Careful(s, labels) && Exact(Run(s, labels))
  {
    hide Inv, ValidRun, Run, RemovesDirectories, Careful;
    InitialInv(s);
    assert DirectoriesOwed(s);
    DirectoriesRunIsCareful(s, labels);
    CarefulIff(s, labels);
    ReachableInv(s, labels);
    assert Run(s, labels).(spoiled := {}) == Run(s, labels);
  }

  // ------------------------------------------------------------------ what becomes of a file

  /** rmdir removes the entry of file f. */
  lemma FileTaken(s: Sys, t: nat, now: Timestamp) returns (s': Sys)
    requires Inv(s) && Enabled(s, TxnStep(t, now, 0, 0)) && TakesFile(s, TxnStep(t, now, 0, 0))
    ensures var f := s.txns[t].inode;
            && Leads(s, [TxnStep(t, now, 0, 0)], s') && Inv(s') && s'.crash.None? && s'.locks == s.locks
            && s'.spoiled == s.spoiled
            && f in s.meta.attrs && f in s'.meta.attrs && s'.meta.attrs[f].kind == s.meta.attrs[f].kind != Directory
            && s'.meta.attrs[f].hardlinks == s.meta.attrs[f].hardlinks
            && t in s'.txns && s'.txns[t].RemovalUnlocking? && s'.txns[t].job == RemoveDir && s'.txns[t].cont == Drop(f)
            && s'.txns[t].inode == f
  {
    hide Inv, Enabled, Apply, Allows, Sticky, Leads;
    var l := TxnStep(t, now, 0, 0);
    IsRunning(s, l);
    RemovalCommits(s, l);
    StepKeepsInv(s, l);
    s' := Apply(s, l);
    OneStep(s, l);
  }

  lemma FileUnlocked(s: Sys, t: nat, now: Timestamp) returns (s': Sys)
    requires Inv(s) && s.crash.None? && t in s.txns && s.txns[t].RemovalUnlocking? && s.txns[t].job == RemoveDir
    requires s.txns[t].cont == Drop(s.txns[t].inode)
    ensures var f := s.txns[t].inode;
            && Leads(s, [TxnStep(t, now, 0, 0)], s') && Inv(s') && s'.crash.None? && f !in s'.locks
            && s'.spoiled == s.spoiled
            && s'.meta == s.meta && t in s'.txns && s'.txns[t] == RmdirChecking(f)
  {
    hide LedgerOk, TxnsOk, FreshOk, SpoiledOk, EntriesOk, Enabled, Apply, Leads, ResumeRename;
    var txn := s.txns[t];
    assert txn.inode in Held(txn);
    UnlockedBy(s, t, now, 0, 0, txn.inode, txn.lock);
    StepKeepsInv(s, TxnStep(t, now, 0, 0));
    s' := Apply(s, TxnStep(t, now, 0, 0));
    OneStep(s, TxnStep(t, now, 0, 0));
  }

  lemma FileChecked(s: Sys, t: nat, f: Inode, now: Timestamp) returns (s': Sys)
    requires Inv(s) && s.crash.None? && t in s.txns && s.txns[t] == RmdirChecking(f)
    requires f in s.meta.attrs && s.meta.attrs[f].hardlinks == 2
    ensures Leads(s, [TxnStep(t, now, 0, 0)], s') && Inv(s')
    ensures s' == s.(txns := s.txns[t := RemovalDropping(RemoveDir, f)])
  {
    hide Inv, Enabled, Apply, Leads;
    s' := CheckRun(s, t, f, now);
    SingleStep(s, TxnStep(t, now, 0, 0), s');
    StepKeepsInv(s, TxnStep(t, now, 0, 0));
  }

  lemma SingleStep(s: Sys, l: Label, s': Sys)
    requires Leads(s, [l], s')
    ensures Enabled(s, l) && s' == Apply(s, l)
  {
    hide Enabled, Apply;
    assert [l][1..] == [];
  }

  lemma FileDropped(s: Sys, t: nat, f: Inode, now: Timestamp) returns (s': Sys)
    requires Inv(s) && s.crash.None? && t in s.txns && s.txns[t] == RemovalDropping(RemoveDir, f) && f !in s.locks
    requires f in s.meta.attrs && s.meta.attrs[f].hardlinks == 2 && s.meta.attrs[f].kind != Directory
    ensures Leads(s, [TxnStep(t, now, 0, 0)], s')
    ensures s'.crash.None? && f !in s'.meta.attrs && (f !in s.spoiled ==> Refs(s'.meta.dir, s'.txns, f) == 1)
  {
    hide Inv, Apply, Leads, Refs, EntriesOf;
    BreakIs(s, t, now, 0, 0);
    if f !in s.spoiled {
      FileLosesLink(s, t, now, 0, 0);
    }
    s' := Apply(s, TxnStep(t, now, 0, 0));
    OneStep(s, TxnStep(t, now, 0, 0));
  }

  /** Whenever rmdir removes the entry of a file, its next steps, taken at once, either stop the run at
      the assertion on the link count, or, if the file has two links, delete it although one name or
      link in flight still refers to it. */
  lemma TakenFileIsLostOrStops(s: Sys, t: nat, now: Timestamp) returns (s': Sys)
    requires Inv(s) && Enabled(s, TxnStep(t, now, 0, 0)) && TakesFile(s, TxnStep(t, now, 0, 0))
    ensures var f := s.txns[t].inode; var step := [TxnStep(t, now, 0, 0)];
            && f in s.meta.attrs
            && if s.meta.attrs[f].hardlinks == 2 then
                 && Leads(s, step + step + step + step, s')
                 && s'.crash.None? && f !in s'.meta.attrs && (f !in s.spoiled ==> Refs(s'.meta.dir, s'.txns, f) == 1)
               else Leads(s, step + step + step, s') && s'.crash == Some(Crash(CoordinatorAssertion))
  {
    hide Inv, Enabled, Apply, TakesFile, Leads, Refs;
    var step := [TxnStep(t, now, 0, 0)];
    var s1 := FileTaken(s, t, now);
    var f := s1.txns[t].inode;
    var s2 := FileUnlocked(s1, t, now);
    Compose(s, step, s1, step, s2);
    if s1.meta.attrs[f].hardlinks == 2 {
      var s3 := FileChecked(s2, t, f, now);
      Compose(s, step + step, s2, step, s3);
      s' := FileDropped(s3, t, f, now);
      Compose(s, step + step + step, s3, step, s');
    } else {
      s' := CheckRun(s2, t, f, now);
      Compose(s, step + step, s2, step, s');
    }
  }
}
