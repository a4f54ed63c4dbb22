/** rmdir checks that a directory is empty under its lock, but deletes it after releasing the lock.
    A create that comes in between stops the run. */
module RmdirRace {
  import opened Types
  import opened Access
  import opened Metadata
  import opened Coordinator
  import opened Cluster
  import opened ClusterRuns
  import opened Invariant
  import opened LinkLedger
  import opened TransactionSteps
  import opened Safety
  import opened RenameTheorems

  /** Caller c can create an entry of this name in directory d right now. */
  predicate CanCreate(s: Sys, d: Inode, name: Name, c: UserContext) {
    && d in s.meta.attrs && d !in s.locks && (d, name) !in s.meta.dir && |name| <= MAX_NAME_LENGTH
    && Allows(s.meta.attrs[d], c, X_OK) && Allows(s.meta.attrs[d], c, W_OK)
  }

  lemma BeginRun(s: Sys, t: nat, txn: Txn) returns (s': Sys)
    requires s.crash.None? && t !in s.txns && IsStart(txn) && (txn.CreateStart? ==> txn.group in s.next)
    ensures Leads(s, [Begin(t, txn)], s') && s' == s.(txns := s.txns[t := txn])
  {
    hide IsStart;
    s' := Apply(s, Begin(t, txn));
    OneStep(s, Begin(t, txn));
  }

  /** A new inode, with the links it is born with. */
  predicate IsNew(a: Attr, c: UserContext, mode: bv16, kind: FileKind) {
    && a.kind == kind && a.hardlinks == LinksAtBirth(kind) && a.mode == WithoutSetId(mode)
    && a.uid == c.uid && a.gid == c.gid
  }

  lemma InodeRun(s: Sys, t: nat, g: nat, p: Inode, n: Name, c: UserContext, mode: bv16, kind: FileKind, now: Timestamp)
    returns (s': Sys)
    requires FreshOk(s) && s.crash.None? && t in s.txns
    requires s.txns[t] == CreateStart(g, p, n, c.uid, c.gid, mode, kind) && g in s.next
    ensures Leads(s, [TxnStep(t, now, 0, 0)], s')
    ensures var j := s.next[g];
            && j !in s.meta.attrs && j != ROOT_INODE
            && s'.crash.None? && s'.locks == s.locks
            && s'.meta.dir == s.meta.dir && s'.meta.numGroups == s.meta.numGroups
            && j in s'.meta.attrs && IsNew(s'.meta.attrs[j], c, mode, kind)
            && s'.meta.attrs == s.meta.attrs[j := s'.meta.attrs[j]]
            && s'.next == s.next[g := j + s.meta.numGroups]
            && s'.txns == s.txns[t := CreateLinking(p, n, c, kind, j, LinksAtBirth(kind))]
  {
    hide WithoutSetId, CommitOwner, CommitAttr, CommitXattr, CommitLink, Enabled, Apply, Leads;
    assert s.next[g] !in s.meta.attrs by { GroupKnown(s, t, 0); }
    Executed(s, t, now, 0, 0, CreateInode(g, p, c.uid, c.gid, mode, kind));
    s' := Apply(s, TxnStep(t, now, 0, 0));
    OneStep(s, TxnStep(t, now, 0, 0));
  }

  /** The entry that a create or a hardlink makes. */
  lemma EntryRun(s: Sys, t: nat, p: Inode, n: Name, c: UserContext, kind: FileKind, i: Inode, now: Timestamp)
    returns (s': Sys)
    requires s.crash.None? && t in s.txns && CanCreate(s, p, n, c)
    requires (s.txns[t].CreateLinking? || s.txns[t].HardlinkLinking?)
    requires ActionOf(s.txns[t], 0) == Propose(CreateLink(p, n, i, kind, None, c))
    ensures Leads(s, [TxnStep(t, now, 0, 0)], s')
    ensures && s'.crash.None? && s'.locks == s.locks && s'.next == s.next && s'.meta.numGroups == s.meta.numGroups
            && Stamped(s.meta, s'.meta, p) && s'.meta.dir == s.meta.dir[(p, n) := Link(i, kind)]
            && s'.txns == s.txns[t := Finished(Success)]
  {
    hide Allows, ActionOf, CommitOwner, CommitAttr, CommitXattr, CommitInode, ResumeRename, ResumeRemoval, Enabled,
         Apply, Leads;
    Executed(s, t, now, 0, 0, CreateLink(p, n, i, kind, None, c));
    s' := Apply(s, TxnStep(t, now, 0, 0));
    OneStep(s, TxnStep(t, now, 0, 0));
  }

  /** rmdir's last check looks at the link count only: it must be two. */
  lemma CheckRun(s: Sys, t: nat, i: Inode, now: Timestamp) returns (s': Sys)
    requires s.crash.None? && t in s.txns && s.txns[t] == RmdirChecking(i) && i in s.meta.attrs
    ensures Leads(s, [TxnStep(t, now, 0, 0)], s')
    ensures s' == if s.meta.attrs[i].hardlinks == 2 then s.(txns := s.txns[t := RemovalDropping(RemoveDir, i)])
                  else Stopped(s, CoordinatorAssertion)
  {
    hide Enabled, Apply, Leads, ResumeRename, ResumeRemoval, DirectoryEntries;
    ReadBy(s, t, now, 0, 0, GetAttributes(s.meta, i));
    s' := Apply(s, TxnStep(t, now, 0, 0));
    OneStep(s, TxnStep(t, now, 0, 0));
  }

  /** A directory that has got an entry is deleted. */
  lemma DropStops(s: Sys, t: nat, d: Inode, name: Name, now: Timestamp) returns (s': Sys)
    requires s.crash.None? && t in s.txns && s.txns[t] == RemovalDropping(RemoveDir, d)
    requires d in s.meta.attrs && s.meta.attrs[d].kind == Directory && s.meta.attrs[d].hardlinks == 2
    requires d !in s.locks && (d, name) in s.meta.dir
    ensures Leads(s, [TxnStep(t, now, 0, 0)], s')
    ensures s' == Stopped(s, NonEmptyDirectoryDeleted)
  {
    hide EntriesOf, CommitOwner, CommitAttr, CommitXattr, CommitLink, Leads, ResumeRename, ResumeRemoval,
         RenameAction;
    assert DirectoryEntries(s.meta, d) > 0 by { NotEmpty(s.meta.dir, (d, name)); }
    s' := Apply(s, TxnStep(t, now, 0, 0));
    OneStep(s, TxnStep(t, now, 0, 0));
  }

  lemma NotEmpty(dir: map<DirKey, Link>, k: DirKey)
    requires k in dir
    ensures |EntriesOf(dir, k.0)| > 0
  {
    assert k in EntriesOf(dir, k.0);
  }

  /** The five steps: a client creates a file in the directory, and rmdir goes on. */
  function Race(t: nat, u: nat, group: nat, d: Inode, name: Name, c: UserContext, now: Timestamp): seq<Label> {
    [Begin(u, CreateStart(group, d, name, c.uid, c.gid, 0, File))] + [TxnStep(u, now, 0, 0)] + [TxnStep(u, now, 0, 0)]
    + [TxnStep(t, now, 0, 0)] + [TxnStep(t, now, 0, 0)]
  }

  lemma RaceStops(s: Sys, t: nat, u: nat, group: nat, d: Inode, name: Name, c: UserContext, now: Timestamp)
    returns (s': Sys)
    requires FreshOk(s) && s.crash.None? && t in s.txns && s.txns[t] == RmdirChecking(d) && u !in s.txns
    requires d in s.meta.attrs && s.meta.attrs[d].kind == Directory && s.meta.attrs[d].hardlinks == 2
    requires group in s.next && CanCreate(s, d, name, c)
    ensures Leads(s, Race(t, u, group, d, name, c, now), s') && s'.crash == Some(Crash(NonEmptyDirectoryDeleted))
  {
    hide FreshOk, Leads, Allows, WithoutSetId;
    var start := [Begin(u, CreateStart(group, d, name, c.uid, c.gid, 0, File))];
    var mine, next := [TxnStep(t, now, 0, 0)], [TxnStep(u, now, 0, 0)];
    var s1 := BeginRun(s, u, start[0].txn);
    assert FreshOk(s1) by { StillFresh(s, u, start[0].txn); }
    var s2 := InodeRun(s1, u, group, d, name, c, 0, File, now);
    var s3 := EntryRun(s2, u, d, name, c, File, s.next[group], now);
    var s4 := CheckRun(s3, t, d, now);
    s' := DropStops(s4, t, d, name, now);
    Compose(s, start, s1, next, s2);
    Compose(s, start + next, s2, next, s3);
    Compose(s, start + next + next, s3, mine, s4);
    Compose(s, start + next + next + mine, s4, mine, s');
  }

  lemma StillFresh(s: Sys, u: nat, txn: Txn)
    requires FreshOk(s) && (txn.CreateStart? ==> txn.group in s.next)
    ensures FreshOk(s.(txns := s.txns[u := txn]))
  {}

  /** In every state in which rmdir has let go of its lock and someone may create an entry in the
      directory, there is a run that stops on the non-empty directory. */
  lemma CreateCanStopRmdir(s: Sys, t: nat, u: nat, group: nat, d: Inode, name: Name, c: UserContext, now: Timestamp)
    requires Inv(s) && s.crash.None? && t in s.txns && s.txns[t] == RmdirChecking(d) && u !in s.txns
    requires group in s.next && CanCreate(s, d, name, c) && s.meta.attrs[d].kind == Directory
    ensures var run := Race(t, u, group, d, name, c, now);
            ValidRun(s, run) && Run(s, run).crash == Some(Crash(NonEmptyDirectoryDeleted))
  {
    hide Leads, Race, Allows, LocksOk, EntriesOk, FreshOk, SpoiledOk, LedgerOk;
    assert s.meta.attrs[d].hardlinks == 2 by {
      TxnIs(s, t);
      if d in s.spoiled {
        NotRoot(s, d);
      }
      LastReference(s, t, d, 2);
    }
    var s' := RaceStops(s, t, u, group, d, name, c, now);
    LeadsIsRun(s, Race(t, u, group, d, name, c, now), s');
  }
}
