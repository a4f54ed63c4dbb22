/** A rename touches nothing but the two names and the inodes it has locked. */
module RenameFrame {
  import opened Types
  import opened Access
  import opened Metadata
  import opened Determinism
  import opened Coordinator
  import opened Cluster
  import opened Invariant
  import opened LinkLedger
  import opened TransactionSteps
  import opened RenameSteps
  import opened LockSteps
  import opened Safety
  import opened RenameTheorems

  /** All entries but those under the old and the new name are the same. */
  ghost predicate OtherEntriesKept(m: Meta, m': Meta, a: RenameArgs) {
    forall k: DirKey :: k != (a.parent, a.name) && k != (a.newParent, a.newName) ==>
      (k in m.dir <==> k in m'.dir) && (k in m.dir ==> m'.dir[k] == m.dir[k])
  }

  /** All attributes are the same, but for times of the directories and the moved inode, and for the
      replaced inode. */
  ghost predicate OtherAttrsKept(m: Meta, m': Meta, a: RenameArgs, l: Locked) {
    forall i :: Some(i) != l.dst ==>
      && (i in m.attrs <==> i in m'.attrs)
      && (i in m.attrs ==> Timeless(m'.attrs[i]) == Timeless(m.attrs[i]))
      && (i in m.attrs && i != a.parent && i != a.newParent && i != l.src ==> m'.attrs[i] == m.attrs[i])
  }

  /** All parent pointers but those of the moved and the replaced inode, and all extended attributes
      but those of the replaced one, are the same. */
  ghost predicate OtherKeysKept(m: Meta, m': Meta, l: Locked) {
    && (forall i :: i != l.src && Some(i) != l.dst ==> SameRow(m.parents, m'.parents, i))
    && (forall i: Inode :: Some(i) != l.dst ==> SameXattrs(m.xattrs, m'.xattrs, i))
  }

  ghost predicate Within(m: Meta, m': Meta, a: RenameArgs, l: Locked) {
    OtherEntriesKept(m, m', a) && OtherAttrsKept(m, m', a, l) && OtherKeysKept(m, m', l)
  }

  lemma SameIsWithin(m: Meta, a: RenameArgs, l: Locked)
    ensures Within(m, m, a, l)
  {}

  /** Rewriting one of the two entries. */
  lemma StampedIsWithin(m: Meta, m': Meta, a: RenameArgs, l: Locked, p: Inode)
    requires Stamped(m, m', p) && (p == a.parent || p == a.newParent) && OtherEntriesKept(m, m', a)
    ensures Within(m, m', a, l)
  {}

  lemma PutIsOther(m: Meta, m': Meta, a: RenameArgs, e: Link)
    requires m'.dir == m.dir[(a.newParent, a.newName) := e]
    ensures OtherEntriesKept(m, m', a)
  {}

  lemma RemoveIsOther(m: Meta, m': Meta, a: RenameArgs)
    requires m'.dir == m.dir - {(a.parent, a.name)}
    ensures OtherEntriesKept(m, m', a)
  {}

  lemma DropIsWithin(m: Meta, a: RenameArgs, l: Locked, count: nat, now: Timestamp)
    requires l.dst.Some?
    ensures Within(m, DecrementStep(m, l.dst.value, count, now).meta, a, l)
  {
    hide DirectoryEntries, Timeless;
  }

  lemma RowIsWithin(m: Meta, a: RenameArgs, l: Locked, now: Timestamp)
    ensures Within(m, UpdateParentStep(m, l.src, a.newParent).meta, a, l)
    ensures Within(m, TouchStep(m, l.src, now).meta, a, l)
  {}

  lemma WriteIsWithin(m: Meta, a: RenameArgs, pc: RenamePc, now: Timestamp, choice: Inode)
    requires Writing(Renaming(a, pc)) && RenameKnows(m, a, pc)
    ensures RenameAction(a, pc, choice).Propose?
    ensures Within(m, CommitMeta(m, RenameAction(a, pc, choice).request, now).meta, a, pc.l)
  {
    hide RenameKnows, Within, OtherEntriesKept, ReplaceLinkStep, CreateLinkStep, RemoveLinkStep, DecrementStep,
         UpdateParentStep, TouchStep, CommitOwner, CommitXattr, Stamped;
    var l, sa, da := pc.l, pc.sa, pc.da;
    if pc.DropTarget? {
      TargetFacts(m, a, l, sa, da);
      DropIsWithin(m, a, l, if da.value.attr.kind == Directory then 2 else 1, now);
    } else if pc.AddLink? || pc.RemoveOld? {
      LinkWriteIsWithin(m, a, pc, now, choice);
    } else {
      RowIsWithin(m, a, l, now);
    }
  }

  lemma LinkWriteIsWithin(m: Meta, a: RenameArgs, pc: RenamePc, now: Timestamp, choice: Inode)
    requires (pc.AddLink? || pc.RemoveOld?) && RenameKnows(m, a, pc)
    ensures Within(m, CommitMeta(m, RenameAction(a, pc, choice).request, now).meta, a, pc.l)
  {
    hide RenameKnows, Within, OtherEntriesKept, ReplaceLinkStep, CreateLinkStep, RemoveLinkStep, CommitOwner,
         CommitAttr, CommitXattr, CommitInode, Stamped;
    var l, sa, da := pc.l, pc.sa, pc.da;
    var m' := CommitMeta(m, RenameAction(a, pc, choice).request, now).meta;
    if pc.RemoveOld? {
      RemoveOldSucceeds(m, a, l, sa, da, now);
      RemoveIsOther(m, m', a);
      StampedIsWithin(m, m', a, l, a.parent);
    } else {
      if l.dst.Some? {
        ReplaceSucceeds(m, a, l, sa, da, now);
      } else {
        CreateSucceeds(m, a, l, sa, da, now);
      }
      PutIsOther(m, m', a, Link(l.src, sa.attr.kind));
      StampedIsWithin(m, m', a, l, a.newParent);
    }
  }

  // ------------------------------------------------------------------ over a run

  /** Every step that transaction t takes in this run stays within the rename's names and inodes. */
  ghost predicate OwnStepsWithin(s: Sys, labels: seq<Label>, t: nat, a: RenameArgs, l: Locked)
    decreases |labels|
  {
    labels != [] ==>
      && (labels[0].TxnStep? && labels[0].t == t ==> Within(s.meta, Apply(s, labels[0]).meta, a, l))
      && OwnStepsWithin(Apply(s, labels[0]), labels[1..], t, a, l)
  }

  lemma OwnStepIsWithin(s: Sys, t: nat, now: Timestamp, newLock: LockId, choice: Inode,
                        a: RenameArgs, l: Locked, sa: EntryMetadata, da: Option<EntryMetadata>)
    requires Inv(s) && Enabled(s, TxnStep(t, now, newLock, choice)) && Carries(s, t, a, l, sa, da)
    ensures Within(s.meta, Apply(s, TxnStep(t, now, newLock, choice)).meta, a, l)
  {
    hide Inv, Enabled, Apply, CommitMeta, RenameKnows, Within, RenameAction, TargetUnderflows, OwesSpoiled;
    IsRunning(s, TxnStep(t, now, newLock, choice));
    RenameCannotFail(s, t, now, newLock, choice);
    TxnIs(s, t);
    WriteIsWithin(s.meta, a, s.txns[t].pc, now, choice);
    SameIsWithin(s.meta, a, l);
  }

  lemma ReleaseIsQuiet(s: Sys, t: nat, now: Timestamp, newLock: LockId, choice: Inode)
    requires Done(s, t) && Enabled(s, TxnStep(t, now, newLock, choice))
    ensures Apply(s, TxnStep(t, now, newLock, choice)).meta == s.meta
  {}

  /** From the first write on, a rename's own steps change no entry but the two names, no link count
      but the replaced inode's, no parent pointer but the moved inode's, and nothing else but times. */
  lemma {:induction false} RenameTouchesNothingElse(s: Sys, labels: seq<Label>, t: nat, a: RenameArgs, l: Locked,
                                                    sa: EntryMetadata, da: Option<EntryMetadata>)
    requires Inv(s) && ValidRun(s, labels)
    requires (Carries(s, t, a, l, sa, da) && TargetGone(s, t, l, da)) || Done(s, t)
    ensures OwnStepsWithin(s, labels, t, a, l)
    decreases |labels|
  {
    hide Inv, Enabled, Apply, Carries, Done, TargetGone, Within;
    if labels != [] {
      var e := labels[0];
      StepKeepsInv(s, e);
      if Done(s, t) {
        if e.TxnStep? && e.t == t {
          ReleaseIsQuiet(s, t, e.now, e.newLock, e.choice);
          SameIsWithin(s.meta, a, l);
        }
        DoneStays(s, e, t);
      } else {
        if e.TxnStep? && e.t == t {
          OwnStepIsWithin(s, t, e.now, e.newLock, e.choice, a, l, sa, da);
        }
        WritesKeep(s, e, t, a, l, sa, da);
      }
      RenameTouchesNothingElse(Apply(s, e), labels[1..], t, a, l, sa, da);
    }
  }

  // ------------------------------------------------------------------ in every run of the cluster

  /** In every run: from the point at which a rename has passed its checks, its own steps touch nothing
      but what it is about, and it has had its effect when it has made all its changes. */
  lemma RenameInEveryRun(start: Sys, before: seq<Label>, labels: seq<Label>, t: nat,
                         a: RenameArgs, l: Locked, sa: EntryMetadata, da: Option<EntryMetadata>)
    requires Initial(start) && ValidRun(start, before) && ValidRun(Run(start, before), labels)
    requires var s := Run(start, before); t in s.txns && s.txns[t] == Renaming(a, AddLink(l, sa, da))
    ensures var s := Run(start, before); var end := Run(s, labels);
            && OwnStepsWithin(s, labels, t, a, l)
            && (t in end.txns && end.txns[t].Renaming? && end.txns[t].pc.Touch? ==> RenameEffect(s.meta, end, a, l))
  {
    hide Inv, Initial, ValidRun, Run, OwnStepsWithin, RenameEffect, HeldBy;
    ReachableInv(start, before);
    var s := Run(start, before);
    RenameTouchesNothingElse(s, labels, t, a, l, sa, da);
    var end := Run(s, labels);
    if t in end.txns && end.txns[t].Renaming? && end.txns[t].pc.Touch? {
      RenameMoves(s, labels, t, a, l, sa, da);
    }
  }

  /** In every run: a rename that fails has changed nothing. */
  lemma FailureInEveryRun(start: Sys, before: seq<Label>, labels: seq<Label>, t: nat, e: ErrorCode)
    requires Initial(start) && ValidRun(start, before) && ValidRun(Run(start, before), labels)
    requires var s := Run(start, before); t in s.txns && s.txns[t].Renaming? && s.txns[t].pc.LockParent?
    requires var end := Run(Run(start, before), labels); t in end.txns && end.txns[t] == Finished(Failure(e))
    ensures ChangesNothing(Run(start, before), labels, t)
  {
    hide Inv, Initial, ValidRun, Run, ChangesNothing;
    ReachableInv(start, before);
    FailedRenameChangesNothing(Run(start, before), labels, t, e);
  }
}
