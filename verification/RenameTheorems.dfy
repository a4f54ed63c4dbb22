/** Rename is all or nothing. */
module RenameTheorems {
  import opened Types
  import opened Access
  import opened Metadata
  import opened Coordinator
  import opened Cluster
  import opened Invariant
  import opened LinkLedger
  import opened TransactionSteps
  import opened RenameSteps
  import opened LockSteps
  import opened Safety

  // ------------------------------------------------------------------ after the access checks nothing fails

  /** The states in which a rename writes. */
  predicate Writing(t: Txn) {
    t.Renaming? && (t.pc.AddLink? || t.pc.DropTarget? || t.pc.RemoveOld? || t.pc.Reparent? || t.pc.Touch?)
  }

  /** The state that follows when the request succeeds. */
  function Ahead(a: RenameArgs, pc: RenamePc): RenamePc
    requires pc.AddLink? || pc.DropTarget? || pc.RemoveOld? || pc.Reparent? || pc.Touch?
  {
    match pc
    case AddLink(l, sa, da) => if l.dst.Some? then DropTarget(l, sa, da) else RemoveOld(l, sa, da)
    case DropTarget(l, sa, da) => RemoveOld(l, sa, da)
    case RemoveOld(l, sa, da) => if sa.attr.kind == Directory then Reparent(l, sa, da) else Touch(l, sa, da)
    case Reparent(l, sa, da) => Touch(l, sa, da)
    case Touch(l, _, _) => ReleaseAll(HeldBy(a, l), Success)
  }

  lemma WriteAction(t: Txn, choice: Inode)
    requires Writing(t) && (t.pc.DropTarget? ==> t.pc.l.dst.Some? && t.pc.da.Some?)
    ensures var a := ActionOf(t, choice);
            && a.Propose? && !a.request.Lock? && !a.request.Unlock? && !a.request.CreateInode?
            && MetaOf(a.request).lockId.Some?
  {}

  /** The file that a rename has replaced has no link left to give back. */
  predicate TargetUnderflows(s: Sys, t: nat) {
    && t in s.txns && s.txns[t].Renaming? && s.txns[t].pc.DropTarget? && s.txns[t].pc.l.dst.Some?
    && var d := s.txns[t].pc.l.dst.value;
       d in s.meta.attrs && s.meta.attrs[d].kind != Directory && s.meta.attrs[d].hardlinks == 0
  }

  lemma WriteSucceeds(s: Sys, t: nat, now: Timestamp, choice: Inode)
    requires Inv(s) && t in s.txns && Writing(s.txns[t])
    ensures var a := ActionOf(s.txns[t], choice);
            && a.Propose? && !a.request.Lock? && !a.request.Unlock? && !a.request.CreateInode?
            && MetaOf(a.request).lockId.Some?
            && var o := CommitMeta(s.meta, a.request, now).outcome;
               if TargetUnderflows(s, t) then o == Panicked(LinkCountUnderflow) && OwesSpoiled(s, t) else o.Ok?
  {
    hide Inv, RenameKnows, CommitOwner, CommitAttr, CommitXattr, CommitLink, CommitInode, MetaOf;
    var a, pc := s.txns[t].args, s.txns[t].pc;
    TxnIs(s, t);
    if pc.DropTarget? {
      DropSucceedsIff(s, t, now, choice);
    } else if pc.AddLink? || pc.RemoveOld? {
      LinkWriteSucceeds(s.meta, s.txns[t], now, choice);
    } else {
      RowWriteSucceeds(s.meta, s.txns[t], now, choice);
    }
    WriteAction(s.txns[t], choice);
  }

  lemma TxnIs(s: Sys, t: nat)
    requires Inv(s) && t in s.txns
    ensures TxnOk(s.meta, s.txns[t], s.spoiled)
  {}

  /** Dropping the replaced inode fails exactly on a file without a link left, which must be a spoiled one. */
  lemma DropSucceedsIff(s: Sys, t: nat, now: Timestamp, choice: Inode)
    requires Inv(s) && t in s.txns && s.txns[t].Renaming? && s.txns[t].pc.DropTarget?
    ensures s.txns[t].pc.l.dst.Some? && s.txns[t].pc.da.Some? && ActionOf(s.txns[t], choice).Propose?
    ensures var o := CommitMeta(s.meta, ActionOf(s.txns[t], choice).request, now).outcome;
            if TargetUnderflows(s, t) then o == Panicked(LinkCountUnderflow) && OwesSpoiled(s, t) else o.Ok?
  {
    hide Inv, RenameKnows, DirectoryEntries, CommitOwner, CommitAttr, CommitXattr, CommitLink, Good, ResumeRemoval,
         HeldBy;
    var a, pc := s.txns[t].args, s.txns[t].pc;
    TxnIs(s, t);
    TargetFacts(s.meta, a, pc.l, pc.sa, pc.da);
    DropTargetFine(s, t, now, choice);
    if pc.l.dst.value in s.spoiled {
      NotRoot(s, pc.l.dst.value);
    }
  }

  lemma LinkWriteSucceeds(m: Meta, t: Txn, now: Timestamp, choice: Inode)
    requires t.Renaming? && (t.pc.AddLink? || t.pc.RemoveOld?) && RenameKnows(m, t.args, t.pc)
    ensures ActionOf(t, choice).Propose? && CommitMeta(m, ActionOf(t, choice).request, now).outcome.Ok?
  {
    hide RenameKnows, ReplaceLinkStep, CreateLinkStep, RemoveLinkStep, CommitOwner, CommitAttr, CommitXattr,
         CommitInode;
    var a, l, sa, da := t.args, t.pc.l, t.pc.sa, t.pc.da;
    if t.pc.RemoveOld? {
      RemoveOldSucceeds(m, a, l, sa, da, now);
    } else if l.dst.Some? {
      ReplaceSucceeds(m, a, l, sa, da, now);
    } else {
      CreateSucceeds(m, a, l, sa, da, now);
    }
  }

  lemma RowWriteSucceeds(m: Meta, t: Txn, now: Timestamp, choice: Inode)
    requires t.Renaming? && (t.pc.Reparent? || t.pc.Touch?) && RenameKnows(m, t.args, t.pc)
    ensures ActionOf(t, choice).Propose? && CommitMeta(m, ActionOf(t, choice).request, now).outcome.Ok?
  {
    hide RenameKnows, TouchStep, CommitOwner, CommitXattr, CommitLink;
    if t.pc.Touch? {
      TouchSucceeds(m, t.args, t.pc.l, t.pc.sa, t.pc.da, now);
    } else {
      ReparentReads(m, t.args, t.pc.l, t.pc.sa, t.pc.da);
    }
  }

  lemma ReparentReads(m: Meta, a: RenameArgs, l: Locked, sa: EntryMetadata, da: Option<EntryMetadata>)
    requires RenameKnows(m, a, Reparent(l, sa, da))
    ensures l.src in m.attrs && m.attrs[l.src].kind == Directory
  {}

  /** Once the access checks have passed, every request of a rename needs no waiting, trips no assertion
      and succeeds, whatever other steps come in between, with one exception: the run stops if the
      replaced file has no link left, which takes an rmdir that has given back two links of it. */
  lemma RenameCannotFail(s: Sys, t: nat, now: Timestamp, newLock: LockId, choice: Inode)
    requires Inv(s) && s.crash.None? && t in s.txns && Writing(s.txns[t])
    ensures Enabled(s, TxnStep(t, now, newLock, choice))
    ensures var s' := Apply(s, TxnStep(t, now, newLock, choice));
            if TargetUnderflows(s, t) then s' == Stopped(s, LinkCountUnderflow) && OwesSpoiled(s, t)
            else
              && s'.crash.None? && s'.txns == s.txns[t := Renaming(s.txns[t].args, Ahead(s.txns[t].args, s.txns[t].pc))]
              && s'.locks == s.locks && s'.meta == CommitMeta(s.meta, ActionOf(s.txns[t], choice).request, now).meta
              && s'.next == s.next && s'.spoiled == s.spoiled
  {
    hide Inv, CommitMeta, ActionOf, OwesSpoiled, TargetUnderflows, StoppedOnNonEmpty, Enabled, Apply, Resume,
         ShowsHeldLock, MustWait;
    WriteSucceeds(s, t, now, choice);
    ShowsItsLock(s, t, choice);
    var r := ActionOf(s.txns[t], choice).request;
    WriteRuns(s, t, now, newLock, choice, r);
    if !TargetUnderflows(s, t) {
      AfterWrite(s, t, now, newLock, choice, CommitMeta(s.meta, r, now).outcome);
    }
  }

  /** A write is let through; it stops the run, or the rename goes on with its answer. */
  lemma WriteRuns(s: Sys, t: nat, now: Timestamp, newLock: LockId, choice: Inode, r: Request)
    requires s.crash.None? && t in s.txns && s.txns[t].Renaming? && ActionOf(s.txns[t], choice) == Propose(r)
    requires !r.Lock? && !r.Unlock? && !r.CreateInode? && MetaOf(r).lockId.Some? && ShowsHeldLock(s.locks, r)
    ensures Enabled(s, TxnStep(t, now, newLock, choice))
    ensures var s', step := Apply(s, TxnStep(t, now, newLock, choice)), CommitMeta(s.meta, r, now);
            s' == if step.outcome.Panicked? then Stopped(s, step.outcome.cause)
                  else Continue(s.(meta := step.meta), t, Resume(s.txns[t], choice, step.outcome))
  {
    hide ActionOf, CommitMeta, Resume, ShowsHeldLock, Continue;
  }

  /** A write that succeeds brings a rename to its next state: it can only fail an assertion otherwise,
      and in a state that satisfies the invariant it does not. */
  lemma AfterWrite(s: Sys, t: nat, now: Timestamp, newLock: LockId, choice: Inode, o: Outcome)
    requires Inv(s) && t in s.txns && Writing(s.txns[t]) && o.Ok?
    requires Enabled(s, TxnStep(t, now, newLock, choice)) && ActionOf(s.txns[t], choice).Propose?
    requires o == CommitMeta(s.meta, ActionOf(s.txns[t], choice).request, now).outcome
    requires var m' := CommitMeta(s.meta, ActionOf(s.txns[t], choice).request, now).meta;
             Apply(s, TxnStep(t, now, newLock, choice)) == Continue(s.(meta := m'), t, Resume(s.txns[t], choice, o))
    ensures Resume(s.txns[t], choice, o) == Go(Renaming(s.txns[t].args, Ahead(s.txns[t].args, s.txns[t].pc)))
  {
    hide Inv, CommitMeta, ActionOf, Enabled, Apply, DirectoryEntries, HeldBy, ResumeRemoval;
    TxnStepKeepsInv(s, t, now, newLock, choice);
  }

  /** The new link is in place: from here on the rename can only succeed. */
  predicate Committed(t: Txn) {
    || (Writing(t) && !t.pc.AddLink?)
    || (t.Renaming? && t.pc.ReleaseAll? && t.pc.result == Success)
    || t == Finished(Success)
  }

  // ------------------------------------------------------------------ on failure nothing has changed

  /** None of the steps that transaction t takes in this run changes the tables. */
  ghost predicate ChangesNothing(s: Sys, labels: seq<Label>, t: nat)
    decreases |labels|
  {
    labels != [] ==>
      && (labels[0].TxnStep? && labels[0].t == t ==> Apply(s, labels[0]).meta == s.meta)
      && ChangesNothing(Apply(s, labels[0]), labels[1..], t)
  }

  predicate IsRename(t: Txn) { t.Renaming? || t.Finished? }

  /** A rename's own step: it changes the tables only by committing or once committed. */
  lemma OwnStep(s: Sys, t: nat, now: Timestamp, newLock: LockId, choice: Inode)
    requires Inv(s) && t in s.txns && IsRename(Now(s, t)) && Enabled(s, TxnStep(t, now, newLock, choice))
    ensures var s' := Apply(s, TxnStep(t, now, newLock, choice));
            && t in s'.txns && IsRename(Now(s', t))
            && (Committed(Now(s, t)) ==> Committed(Now(s', t)))
            && (s'.meta == s.meta || Committed(Now(s', t)))
  {
    hide Inv, GetAttributes, LookupOutcome, HeldBy, HeldInRename, RenameDenied, TargetUnderflows, OwesSpoiled;
    if Writing(s.txns[t]) {
      hide Apply, Enabled, CommitMeta, ActionOf;
      IsRunning(s, TxnStep(t, now, newLock, choice));
      RenameCannotFail(s, t, now, newLock, choice);
    } else {
      assert s.crash.None?;
    }
  }

  /** Anybody else's step leaves the rename where it is. */
  lemma OtherStep(s: Sys, l: Label, t: nat)
    requires Enabled(s, l) && t in s.txns && !(l.TxnStep? && l.t == t)
    ensures t in Apply(s, l).txns && Apply(s, l).txns[t] == s.txns[t]
  {
    hide ActionOf, Execute, Resume;
  }

  /** A rename that has not committed has not changed anything, whatever the others did: in
      particular one that has failed. */
  lemma {:induction false} UncommittedChangesNothing(s: Sys, labels: seq<Label>, t: nat)
    requires Inv(s) && ValidRun(s, labels) && t in s.txns && IsRename(Now(s, t))
    ensures t in Run(s, labels).txns
    ensures Committed(Now(s, t)) ==> Committed(Now(Run(s, labels), t))
    ensures !Committed(Now(Run(s, labels), t)) ==> ChangesNothing(s, labels, t)
    decreases |labels|
  {
    hide Inv, Enabled, Apply, Committed;
    if labels != [] {
      var l := labels[0];
      StepKeepsInv(s, l);
      if l.TxnStep? && l.t == t {
        OwnStep(s, t, l.now, l.newLock, l.choice);
      } else {
        OtherStep(s, l, t);
      }
      UncommittedChangesNothing(Apply(s, l), labels[1..], t);
    }
  }

  lemma FailedRenameChangesNothing(s: Sys, labels: seq<Label>, t: nat, e: ErrorCode)
    requires Inv(s) && ValidRun(s, labels) && t in s.txns && s.txns[t].Renaming? && s.txns[t].pc.LockParent?
    requires t in Run(s, labels).txns && Run(s, labels).txns[t] == Finished(Failure(e))
    ensures ChangesNothing(s, labels, t)
  {
    hide Inv, ValidRun, Run;
    UncommittedChangesNothing(s, labels, t);
  }

  // ------------------------------------------------------------------ deleted inodes stay deleted

  /** Inode i was given out once, and has been deleted. */
  ghost predicate Retired(s: Sys, i: Inode) {
    && s.meta.numGroups > 0 && i !in s.meta.attrs
    && i % s.meta.numGroups in s.next && i < s.next[i % s.meta.numGroups]
  }

  lemma RetiredAfterExecute(s: Sys, r: Request, now: Timestamp, i: Inode, s': Sys)
    requires FreshOk(s) && Retired(s, i)
    requires s'.meta == Execute(s, r, now).meta && s'.next == CountersAfter(s, r, s'.meta)
    requires r.CreateInode? ==> r.raftGroup in s.next
    ensures Retired(s', i)
  {
    hide CommitMeta;
    CommitInodeSet(TablesFor(s, r), r, now);
    if r.CreateInode? {
      CreateCounts(TablesFor(s, r), r, now);
    }
  }

  /** An inode number is never used again. */
  lemma RetiredStays(s: Sys, l: Label, i: Inode)
    requires FreshOk(s) && Enabled(s, l) && Retired(s, i)
    ensures Retired(Apply(s, l), i)
  {
    hide FreshOk, CommitMeta, Resume, ActionOf, CountersAfter, SpoiledAfter;
    match l
    case TxnStep(t, now, newLock, choice) =>
      var a := ActionOf(s.txns[t], choice);
      if a.Propose? && !a.request.Lock? && !a.request.Unlock? {
        hide Execute;
        var r := a.request;
        if r.CreateInode? { GroupKnown(s, t, choice); }
        var m' := Execute(s, r, now).meta;
        RetiredAfterExecute(s, r, now, i, s.(meta := m', next := CountersAfter(s, r, m')));
      }
    case Env(r, now) =>
      ClientRequestEffect(s.meta, r, now);
    case Begin(_, _) =>
  }

  // ------------------------------------------------------------------ on success

  /** Transaction t is somewhere in the writing part of this rename. */
  ghost predicate Carries(s: Sys, t: nat, a: RenameArgs, l: Locked, sa: EntryMetadata, da: Option<EntryMetadata>) {
    && t in s.txns && Writing(s.txns[t])
    && s.txns[t].args == a && s.txns[t].pc.l == l && s.txns[t].pc.sa == sa && s.txns[t].pc.da == da
  }

  ghost predicate Done(s: Sys, t: nat) {
    t in s.txns && IsRename(s.txns[t]) && Committed(s.txns[t]) && !Writing(s.txns[t])
  }

  /** The replaced inode has no other link: a directory, or a file linked only here. */
  predicate Doomed(da: EntryMetadata) { da.attr.kind == Directory || da.attr.hardlinks == 1 }

  ghost predicate TargetGone(s: Sys, t: nat, l: Locked, da: Option<EntryMetadata>) {
    t in s.txns && Writing(s.txns[t]) && var pc := s.txns[t].pc;
    !pc.AddLink? && !pc.DropTarget? && l.dst.Some? && da.Some? ==>
      && (da.value.attr.kind == Directory || da.value.attr.hardlinks >= 1)
      && (Doomed(da.value) ==> Retired(s, l.dst.value))
  }

  /** The replaced directory, or file with a single link, is deleted under its lock. */
  lemma DropDeletes(s: Sys, t: nat, now: Timestamp, a: RenameArgs, l: Locked, sa: EntryMetadata,
                    da: Option<EntryMetadata>)
    requires Inv(s) && t in s.txns && s.txns[t] == Renaming(a, DropTarget(l, sa, da))
    ensures l.dst.Some? && da.Some?
    ensures var count := if da.value.attr.kind == Directory then 2 else 1;
            Doomed(da.value) ==> DecrementStep(s.meta, l.dst.value, count, now).meta == DeleteInode(s.meta, l.dst.value)
    ensures l.dst.value in s.locks && l.dst.value in s.meta.attrs && l.dst.value != ROOT_INODE
    ensures da.value.attr == s.meta.attrs[l.dst.value]
  {
    hide LedgerOk, EntriesOk, FreshOk, LocksOk, DeleteInode, Reads, EntriesOf, RenameKnows;
    TxnIs(s, t);
    TargetFacts(s.meta, a, l, sa, da);
    var d := l.dst.value;
    assert da.value.attr == s.meta.attrs[d] by { TargetAttr(s.meta, a, l, sa, da); }
    var count := if da.value.attr.kind == Directory then 2 else 1;
    if d !in s.spoiled {
      LastReference(s, t, d, count);
    }
    assert d in Held(s.txns[t]);
    HeldIsLocked(s, t, d);
  }

  lemma TargetAttr(m: Meta, a: RenameArgs, l: Locked, sa: EntryMetadata, da: Option<EntryMetadata>)
    requires RenameKnows(m, a, DropTarget(l, sa, da))
    ensures l.dst.Some? && da.Some? && l.dst.value in m.attrs && da.value.attr == m.attrs[l.dst.value]
  {}

  lemma WritesKeep(s: Sys, e: Label, t: nat, a: RenameArgs, l: Locked, sa: EntryMetadata, da: Option<EntryMetadata>)
    requires Inv(s) && Enabled(s, e) && Carries(s, t, a, l, sa, da) && TargetGone(s, t, l, da)
    ensures var s' := Apply(s, e);
            (Carries(s', t, a, l, sa, da) && TargetGone(s', t, l, da)) || Done(s', t)
  {
    hide Inv, CommitMeta, HeldBy, Retired, Apply, Enabled, ActionOf, FreshOk, OwesSpoiled;
    var s' := Apply(s, e);
    assert FreshOk(s) by { FreshOf(s); }
    if e.TxnStep? && e.t == t {
      IsRunning(s, e);
      RenameCannotFail(s, t, e.now, e.newLock, e.choice);
      if !TargetUnderflows(s, t) {
        if s.txns[t].pc.DropTarget? {
          DropRetires(s, t, e.now, e.newLock, e.choice);
        } else if l.dst.Some? && Retired(s, l.dst.value) {
          RetiredStays(s, e, l.dst.value);
        }
      }
    } else {
      OtherStep(s, e, t);
      if l.dst.Some? && Retired(s, l.dst.value) {
        RetiredStays(s, e, l.dst.value);
      }
    }
  }

  /** A replaced inode that is dropped had a link, and is gone for good if that was the last. */
  lemma DropRetires(s: Sys, t: nat, now: Timestamp, newLock: LockId, choice: Inode)
    requires Inv(s) && s.crash.None? && t in s.txns && s.txns[t].Renaming? && s.txns[t].pc.DropTarget?
    requires Enabled(s, TxnStep(t, now, newLock, choice)) && !TargetUnderflows(s, t)
    ensures s.txns[t].pc.l.dst.Some? && s.txns[t].pc.da.Some?
    ensures var da := s.txns[t].pc.da.value;
            && (da.attr.kind == Directory || da.attr.hardlinks >= 1)
            && (Doomed(da) ==> Retired(Apply(s, TxnStep(t, now, newLock, choice)), s.txns[t].pc.l.dst.value))
  {
    hide Inv, DecrementStep, Doomed, Apply, Enabled;
    var a, pc := s.txns[t].args, s.txns[t].pc;
    DropDeletes(s, t, now, a, pc.l, pc.sa, pc.da);
    RenameCannotFail(s, t, now, newLock, choice);
    assert FreshOk(s) by { FreshOf(s); }
  }

  lemma FreshOf(s: Sys)
    requires Inv(s)
    ensures FreshOk(s)
  {}

  lemma DoneStays(s: Sys, e: Label, t: nat)
    requires Inv(s) && Enabled(s, e) && Done(s, t)
    ensures Done(Apply(s, e), t)
  {
    hide Inv, Apply, Enabled;
    if e.TxnStep? && e.t == t {
      OwnStep(s, t, e.now, e.newLock, e.choice);
      DoneNeverWrites(s, t, e.now, e.newLock, e.choice);
    } else {
      OtherStep(s, e, t);
    }
  }

  lemma DoneNeverWrites(s: Sys, t: nat, now: Timestamp, newLock: LockId, choice: Inode)
    requires Done(s, t) && Enabled(s, TxnStep(t, now, newLock, choice))
    ensures var s' := Apply(s, TxnStep(t, now, newLock, choice)); t in s'.txns && !Writing(Now(s', t))
  {}

  lemma {:induction false} WritesThroughout(s: Sys, labels: seq<Label>, t: nat,
                                            a: RenameArgs, l: Locked, sa: EntryMetadata, da: Option<EntryMetadata>)
    requires Inv(s) && ValidRun(s, labels)
    requires (Carries(s, t, a, l, sa, da) && TargetGone(s, t, l, da)) || Done(s, t)
    ensures var s' := Run(s, labels);
            Inv(s') && ((Carries(s', t, a, l, sa, da) && TargetGone(s', t, l, da)) || Done(s', t))
    decreases |labels|
  {
    hide Inv, Enabled, Apply, Carries, Done, TargetGone;
    if labels != [] {
      StepKeepsInv(s, labels[0]);
      if Done(s, t) {
        DoneStays(s, labels[0], t);
      } else {
        WritesKeep(s, labels[0], t, a, l, sa, da);
      }
      WritesThroughout(Apply(s, labels[0]), labels[1..], t, a, l, sa, da);
    }
  }

  /** What a rename has achieved between two states of the tables. */
  ghost predicate RenameEffect(m: Meta, s': Sys, a: RenameArgs, l: Locked) {
    var m' := s'.meta;
    // the old name is gone, and the new name is the inode's
    && HasEntry(m, a.parent, a.name, l.src) && (a.parent, a.name) !in m'.dir
    && HasEntry(m', a.newParent, a.newName, l.src)
    // no attribute of the moved inode has changed, its link count included
    && l.src in m.attrs && l.src in m'.attrs && m'.attrs[l.src] == m.attrs[l.src]
    // the replaced inode has lost the link it had under the new name, and is deleted if it was its last
    && (match l.dst
        case None => (a.newParent, a.newName) !in m.dir
        case Some(d) =>
          && HasEntry(m, a.newParent, a.newName, d) && d in m.attrs
          && (if m.attrs[d].kind == Directory || m.attrs[d].hardlinks == 1 then Retired(s', d)
              else d in m'.attrs && m'.attrs[d].hardlinks == m.attrs[d].hardlinks - 1))
    // a moved directory knows its new parent
    && (m.attrs[l.src].kind == Directory ==> l.src in m'.parents && m'.parents[l.src] == a.newParent)
  }

  /** Whatever the other transactions and clients do meanwhile, a rename that has passed its checks
      in state s has had its effect when it has made all its changes. */
  lemma RenameMoves(s: Sys, labels: seq<Label>, t: nat, a: RenameArgs, l: Locked, sa: EntryMetadata,
                    da: Option<EntryMetadata>)
    requires Inv(s) && ValidRun(s, labels) && t in s.txns && s.txns[t] == Renaming(a, AddLink(l, sa, da))
    requires var s' := Run(s, labels); t in s'.txns && s'.txns[t].Renaming? && s'.txns[t].pc.Touch?
    ensures RenameEffect(s.meta, Run(s, labels), a, l)
    ensures forall i :: i in HeldBy(a, l) ==> i in s.locks && i in Run(s, labels).locks
  {
    hide Inv, ValidRun, Run, RenameKnows, RenameEffect, Retired, HeldBy;
    var s' := Run(s, labels);
    WritesThroughout(s, labels, t, a, l, sa, da);
    assert s'.txns[t] == Renaming(a, Touch(l, sa, da));
    TxnIs(s, t);
    TxnIs(s', t);
    EffectKnown(s.meta, s', a, l, sa, da);
    LocksHeld(s, t);
    LocksHeld(s', t);
  }

  lemma EffectKnown(m: Meta, s': Sys, a: RenameArgs, l: Locked, sa: EntryMetadata, da: Option<EntryMetadata>)
    requires RenameKnows(m, a, AddLink(l, sa, da)) && RenameKnows(s'.meta, a, Touch(l, sa, da))
    requires l.dst.Some? && da.Some? ==>
               && (da.value.attr.kind == Directory || da.value.attr.hardlinks >= 1)
               && (Doomed(da.value) ==> Retired(s', l.dst.value))
    ensures RenameEffect(m, s', a, l)
  {
    hide Allows, StickyForbids, EntriesOf, Retired;
  }

  lemma LocksHeld(s: Sys, t: nat)
    requires Inv(s) && t in s.txns
    ensures forall i :: i in Held(s.txns[t]) ==> i in s.locks
  {
    hide Held, LedgerOk, TxnsOk, EntriesOk, FreshOk, LocksOk;
    forall i | i in Held(s.txns[t])
      ensures i in s.locks
    {
      HeldIsLocked(s, t, i);
    }
  }

  /** The last write, after which the locks are released, only stamps the moved inode. */
  lemma TouchOnlyStamps(s: Sys, t: nat, now: Timestamp, newLock: LockId, choice: Inode)
    requires Inv(s) && s.crash.None? && t in s.txns && s.txns[t].Renaming? && s.txns[t].pc.Touch?
    ensures Enabled(s, TxnStep(t, now, newLock, choice))
    ensures var s' := Apply(s, TxnStep(t, now, newLock, choice)); var i := s.txns[t].pc.l.src;
            && i in s.meta.attrs
            && s'.meta == s.meta.(attrs := s.meta.attrs[i := s.meta.attrs[i].(lastMetadataChanged := now)])
            && t in s'.txns && s'.txns[t] == Renaming(s.txns[t].args, ReleaseAll(Held(s.txns[t]), Success))
  {
    hide Inv, Apply, Enabled, CommitOwner, CommitXattr, CommitLink, CommitInode, OwesSpoiled;
    RenameCannotFail(s, t, now, newLock, choice);
    TxnIs(s, t);
  }
}
