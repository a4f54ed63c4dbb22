/** What holds in every run of the cluster. */
module Guarantees {
  import opened Types
  import opened Access
  import opened Metadata
  import opened Coordinator
  import opened Cluster
  import opened Invariant
  import opened LinkLedger
  import opened TransactionSteps
  import opened RenameSteps
  import opened LockSteps
  import opened Safety
  import opened RenameTheorems

  // ------------------------------------------------------------------ links

  /** Link counts are conserved: unless an rmdir has given back two links of it, an inode's count is its
      number of entries (plus one for a directory) plus the links that transactions are about to make
      or have still to give back, minus the second link of a rename in progress. */
  lemma LinkCountsConserved(s: Sys, labels: seq<Label>, i: Inode)
    requires Initial(s) && ValidRun(s, labels)
    requires i in Run(s, labels).meta.attrs && i != ROOT_INODE && i !in Run(s, labels).spoiled
    ensures var s' := Run(s, labels);
            s'.meta.attrs[i].hardlinks
            == EntriesTo(s'.meta.dir, i) + (if s'.meta.attrs[i].kind == Directory then 1 else 0)
               + Pluses(s'.txns, i) - Minuses(s'.txns, i)
  {
    hide Initial, ValidRun, Run, EntriesTo, Pluses, Minuses, LocksOk, TxnsOk, EntriesOk, FreshOk, SpoiledOk;
    ReachableInv(s, labels);
  }

  /** No entry points at a deleted inode, each records its target's kind, and what has a name has a
      link count of at least one, unless an rmdir has given back two links of the target. */
  lemma NoDanglingEntry(s: Sys, labels: seq<Label>, k: DirKey)
    requires Initial(s) && ValidRun(s, labels) && k in Run(s, labels).meta.dir
    ensures var m := Run(s, labels).meta; var e := m.dir[k];
            && e.inode != ROOT_INODE
            && (e.inode !in Run(s, labels).spoiled ==>
                  e.inode in m.attrs && m.attrs[e.inode].kind == e.kind && m.attrs[e.inode].hardlinks >= 1)
  {
    hide Initial, ValidRun, Run, LocksOk, TxnsOk, LedgerOk, FreshOk;
    ReachableInv(s, labels);
    var s' := Run(s, labels);
    assert s'.meta.dir[k].inode in s'.spoiled || EntryOk(s'.meta, s'.meta.dir[k]);
    if s'.meta.dir[k].inode !in s'.spoiled {
      LinkedHasCount(s', k);
    }
  }

  /** What has a name has a link count. */
  lemma LinkedHasCount(s: Sys, k: DirKey)
    requires Inv(s) && k in s.meta.dir && s.meta.dir[k].inode !in s.spoiled
    ensures s.meta.dir[k].inode in s.meta.attrs && s.meta.attrs[s.meta.dir[k].inode].hardlinks >= 1
  {
    hide LocksOk, FreshOk, SpoiledOk, TxnsOk, EntriesTo, Pluses, Minuses;
    var i := s.meta.dir[k].inode;
    assert EntryOk(s.meta, s.meta.dir[k]);
    HasAnEntry(s.meta.dir, k);
    AtMostOneDoubleLink(s, i);
  }

  /** When all transactions are done, no lock is left, and the counts of all inodes that are not spoiled
      are exact. */
  lemma QuietStateIsClean(s: Sys, labels: seq<Label>)
    requires Initial(s) && ValidRun(s, labels)
    requires forall t :: t in Run(s, labels).txns ==> Run(s, labels).txns[t].Finished?
    ensures var s' := Run(s, labels);
            && s'.locks == map[]
            && forall i :: i in s'.meta.attrs && i != ROOT_INODE && i !in s'.spoiled ==>
                 s'.meta.attrs[i].hardlinks
                 == EntriesTo(s'.meta.dir, i) + if s'.meta.attrs[i].kind == Directory then 1 else 0
  {
    hide Initial, ValidRun, Run, EntriesTo, EntriesOk, FreshOk, SpoiledOk;
    ReachableInv(s, labels);
    var s' := Run(s, labels);
    forall i
      ensures Pluses(s'.txns, i) == 0 && Minuses(s'.txns, i) == 0
    {
      assert Owing(s'.txns, i) == {} && Doubling(s'.txns, i) == {};
    }
    assert forall i :: !SomeoneHolds(s'.txns, i);
  }

  // ------------------------------------------------------------------ stops

  /** A run stops only because a client syncs the root directory or sets its owner, mode or times,
      because rmdir (or an undone create) deletes a directory that is not empty, because rmdir has ended
      up with a file, or because a spoiled file has fewer links than are given back. */
  lemma OnlyKnownStops(s: Sys, labels: seq<Label>, l: Label)
    requires Initial(s) && ValidRun(s, labels) && Enabled(Run(s, labels), l)
    requires Apply(Run(s, labels), l).crash.Some?
    ensures KnownStop(Run(s, labels), l, Apply(Run(s, labels), l))
  {
    hide Initial, ValidRun, Run, Inv, Apply, Enabled, KnownStop;
    ReachableInv(s, labels);
    StepKeepsInv(Run(s, labels), l);
  }

  /** rmdir checks for entries and counts links first, and gives back two links later.  So it stops the
      run exactly if an entry has come into the directory in between, or if its inode is a file that
      has lost a link in between; if it is gone, rmdir fails. */
  lemma RmdirStopsIff(s: Sys, t: nat, now: Timestamp, newLock: LockId, choice: Inode)
    requires Inv(s) && Enabled(s, TxnStep(t, now, newLock, choice))
    requires s.txns[t].RemovalDropping? && s.txns[t].job == RemoveDir
    ensures var i := s.txns[t].inode;
            && (i in s.meta.attrs || i in s.spoiled)
            && (Apply(s, TxnStep(t, now, newLock, choice)).crash.Some? <==>
                && i in s.meta.attrs
                && if s.meta.attrs[i].kind == Directory then DirectoryEntries(s.meta, i) > 0
                   else s.meta.attrs[i].hardlinks < 2)
  {
    hide LedgerOk, LocksOk, EntriesOk, FreshOk, SpoiledOk, DirectoryEntries, CommitOwner, CommitAttr, CommitXattr,
         CommitLink, ResumeRename, ResumeRemoval, RenameAction;
    TxnIs(s, t);
    var i := s.txns[t].inode;
    if i in s.spoiled {
      NotRoot(s, i);
    } else {
      LastReference(s, t, i, if s.meta.attrs[i].kind == Directory then 2 else 1);
    }
  }

  // ------------------------------------------------------------------ permissions

  /** On whose behalf a transaction changes directories. */
  function Caller(t: Txn): Option<UserContext> {
    match t
    case CreateLinking(_, _, c, _, _, _) => Some(c)
    case HardlinkLinking(_, _, _, c, _, _) => Some(c)
    case UnlinkStart(_, _, c) => Some(c)
    case RemovalTrying(_, _, _, c, _, _, _) => Some(c)
    case Renaming(a, _) => Some(a.context)
    case _ => None
  }

  ghost predicate EntryChanged(m: Meta, m': Meta, k: DirKey) {
    !(k in m.dir <==> k in m'.dir) || (k in m.dir && m.dir[k] != m'.dir[k])
  }

  /** The caller may write to the directory, may search it to add an entry, and takes out an entry of a
      sticky directory as the superuser, the directory's owner, or the owner of the entry's target. */
  ghost predicate MayChange(m: Meta, k: DirKey, c: UserContext) {
    && k.0 in m.attrs && Allows(m.attrs[k.0], c, W_OK)
    && (k !in m.dir ==> Allows(m.attrs[k.0], c, X_OK) && |k.1| <= MAX_NAME_LENGTH)
    && (k in m.dir && Sticky(m.attrs[k.0]) && c.uid != 0 && c.uid != m.attrs[k.0].uid ==>
          m.dir[k].inode in m.attrs && m.attrs[m.dir[k].inode].uid == c.uid)
  }

  lemma OnlyLinkRequestsChangeEntries(m: Meta, r: Request, now: Timestamp)
    requires !IsLinkRequest(r)
    ensures CommitMeta(m, r, now).meta.dir == m.dir
  {
    hide Allows, XattrDenied, WithoutSetId, NewTime, IsNow, MetadataOf, DirectoryEntries, CommitOwner, CommitAttr;
    if IsOwnerRequest(r) || IsAttrRequest(r) {
      AttrRequestEffect(m, r, now);
    }
  }

  /** A RemoveLink that knows the target's owner, or need not. */
  lemma RemoveLinkAllowed(m: Meta, p: Inode, n: Name, known: Option<InodeUidPair>, c: UserContext, now: Timestamp,
                          k: DirKey)
    requires EntryChanged(m, RemoveLinkStep(m, p, n, known, c, now).meta, k)
    requires known.Some? ==> known.value.inode in m.attrs && m.attrs[known.value.inode].uid == known.value.uid
    ensures MayChange(m, k, c)
  {
    hide Allows, Sticky;
  }

  lemma CreateLinkAllowed(m: Meta, i: Inode, p: Inode, n: Name, c: UserContext, kind: FileKind, now: Timestamp,
                          k: DirKey)
    requires EntryChanged(m, CreateLinkStep(m, i, p, n, c, kind, now).meta, k)
    ensures MayChange(m, k, c)
  {
    hide Allows, Sticky;
  }

  lemma ReplaceLinkAllowed(m: Meta, a: RenameArgs, l: Locked, sa: EntryMetadata, da: Option<EntryMetadata>,
                           now: Timestamp, k: DirKey)
    requires RenameKnows(m, a, AddLink(l, sa, da)) && l.dst.Some?
    requires EntryChanged(m, ReplaceLinkStep(m, a.newParent, a.newName, l.src, sa.attr.kind, a.context, now).meta, k)
    ensures MayChange(m, k, a.context)
  {
    hide Allows, Sticky, EntriesOf;
  }

  lemma LinkRequestAllowed(s: Sys, t: nat, choice: Inode, now: Timestamp, k: DirKey)
    requires Inv(s) && t in s.txns && ActionOf(s.txns[t], choice).Propose?
    requires IsLinkRequest(ActionOf(s.txns[t], choice).request)
    requires EntryChanged(s.meta, CommitLink(s.meta, ActionOf(s.txns[t], choice).request, now).meta, k)
    ensures Caller(s.txns[t]).Some? && MayChange(s.meta, k, Caller(s.txns[t]).value)
  {
    hide LocksOk, LedgerOk, FreshOk, SpoiledOk, EntriesOk, EntryChanged, MayChange, RemoveLinkStep, CreateLinkStep,
         ReplaceLinkStep, RenameKnows;
    TxnIs(s, t);
    var m := s.meta;
    match s.txns[t]
    case UnlinkStart(p, n, c) => RemoveLinkAllowed(m, p, n, None, c, now, k);
    case RemovalTrying(_, p, n, c, i, _, u) => RemoveLinkAllowed(m, p, n, Some(InodeUidPair(i, u)), c, now, k);
    case CreateLinking(p, n, c, kind, i, _) => CreateLinkAllowed(m, i, p, n, c, kind, now, k);
    case HardlinkLinking(i, p, n, c, kind, _) => CreateLinkAllowed(m, i, p, n, c, kind, now, k);
    case Renaming(a, AddLink(l, sa, da)) =>
      if l.dst.Some? {
        ReplaceLinkAllowed(m, a, l, sa, da, now, k);
      } else {
        CreateLinkAllowed(m, l.src, a.newParent, a.newName, a.context, sa.attr.kind, now, k);
      }
    case Renaming(a, RemoveOld(l, sa, da)) =>
      SourceOwner(m, a, l, sa, da);
      RemoveLinkAllowed(m, a.parent, a.name, Some(InodeUidPair(l.src, sa.attr.uid)), a.context, now, k);
    case _ =>
  }

  lemma SourceOwner(m: Meta, a: RenameArgs, l: Locked, sa: EntryMetadata, da: Option<EntryMetadata>)
    requires RenameKnows(m, a, RemoveOld(l, sa, da))
    ensures l.src in m.attrs && m.attrs[l.src].uid == sa.attr.uid
  {
    hide EntriesOf;
  }

  lemma EntryKept(m: Meta, m': Meta, k: DirKey)
    requires m'.dir == m.dir
    ensures !EntryChanged(m, m', k)
  {}

  /** Directory protection: an entry is added, removed or replaced only by a caller who may write to the
      directory at that very step, and search it to add one; and from a sticky directory it is taken out
      only by the superuser, the directory's owner or the owner that the entry's target has at that step. */
  lemma EntryChangesAreAllowed(s: Sys, l: Label, k: DirKey)
    requires Inv(s) && Enabled(s, l) && EntryChanged(s.meta, Apply(s, l).meta, k)
    ensures l.TxnStep? && Caller(s.txns[l.t]).Some? && MayChange(s.meta, k, Caller(s.txns[l.t]).value)
  {
    hide Inv, MayChange, Resume, ActionOf, CommitMeta, EntryChanged, CountersAfter, ShowsHeldLock, SpoiledAfter;
    if l.TxnStep? {
      OnlyLinkStepsChangeEntries(s, l.t, l.now, l.newLock, l.choice, k);
      LinkRequestAllowed(s, l.t, l.choice, l.now, k);
    } else {
      if l.Env? {
        OnlyLinkRequestsChangeEntries(s.meta, l.request, l.now);
      }
      EntryKept(s.meta, Apply(s, l).meta, k);
    }
  }

  /** Every step of every run respects directory protection. */
  lemma EntriesAreProtected(s: Sys, labels: seq<Label>, l: Label, k: DirKey)
    requires Initial(s) && ValidRun(s, labels) && Enabled(Run(s, labels), l)
    requires EntryChanged(Run(s, labels).meta, Apply(Run(s, labels), l).meta, k)
    ensures var s' := Run(s, labels);
            && l.TxnStep? && l.t in s'.txns
            && Caller(s'.txns[l.t]).Some? && MayChange(s'.meta, k, Caller(s'.txns[l.t]).value)
  {
    hide Initial, ValidRun, Run, Inv, MayChange, EntryChanged, Caller, Apply;
    ReachableInv(s, labels);
    EntryChangesAreAllowed(Run(s, labels), l, k);
  }

  lemma OnlyLinkStepsChangeEntries(s: Sys, t: nat, now: Timestamp, newLock: LockId, choice: Inode, k: DirKey)
    requires Enabled(s, TxnStep(t, now, newLock, choice))
    requires EntryChanged(s.meta, Apply(s, TxnStep(t, now, newLock, choice)).meta, k)
    ensures var a := ActionOf(s.txns[t], choice);
            && a.Propose? && IsLinkRequest(a.request)
            && EntryChanged(s.meta, CommitLink(s.meta, a.request, now).meta, k)
  {
    hide Resume, ActionOf, CommitMeta, EntryChanged, CountersAfter, ShowsHeldLock, KernelValidated, MustWait,
         SpoiledAfter;
    var a := ActionOf(s.txns[t], choice);
    if a.Propose? && IsLinkRequest(a.request) {
      LinkIsCommit(s.meta, a.request, now);
    } else if a.Propose? {
      OnlyLinkRequestsChangeEntries(TablesFor(s, a.request), a.request, now);
    }
    if Apply(s, TxnStep(t, now, newLock, choice)).meta.dir == s.meta.dir {
      EntryKept(s.meta, Apply(s, TxnStep(t, now, newLock, choice)).meta, k);
    }
  }

  lemma LinkIsCommit(m: Meta, r: Request, now: Timestamp)
    requires IsLinkRequest(r)
    ensures CommitMeta(m, r, now) == CommitLink(m, r, now)
  {
    hide CommitLink, CommitOwner, CommitAttr, CommitXattr, CommitInode;
  }
}
