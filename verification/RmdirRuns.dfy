/** Complete runs in which rmdir goes wrong, from a new filesystem on. */
module RmdirRuns {
  import opened Types
  import opened Access
  import opened Metadata
  import opened Coordinator
  import opened Cluster
  import opened ClusterRuns
  import opened Invariant
  import opened TransactionSteps
  import opened Safety
  import opened RmdirRace

  const ADMIN: UserContext := UserContext(0, 0)

  /** Root's context may do what it likes in the root directory. */
  predicate RootOpen(m: Meta) {
    ROOT_INODE in m.attrs && Allows(m.attrs[ROOT_INODE], ADMIN, W_OK) && Allows(m.attrs[ROOT_INODE], ADMIN, X_OK)
  }

  /** Nothing is locked, and root may work in the root directory. */
  ghost predicate Idle(s: Sys) {
    s.crash.None? && s.locks == map[] && Inv(s) && RootOpen(s.meta)
  }

  /** The attributes of all inodes but i and the root directory are the same. */
  ghost predicate SameBut(m: Meta, m': Meta, i: Inode) {
    forall j :: j != i && j != ROOT_INODE ==> SameRow(m.attrs, m'.attrs, j)
  }

  // ------------------------------------------------------------------ creating a file or directory

  function Creating(t: nat, g: nat, n: Name, mode: bv16, kind: FileKind, now: Timestamp): seq<Label> {
    [Begin(t, CreateStart(g, ROOT_INODE, n, 0, 0, mode, kind))] + [TxnStep(t, now, 0, 0)] + [TxnStep(t, now, 0, 0)]
  }

  /** Root may create this entry in the root directory, and can go on after a change to it. */
  lemma RootCanCreate(s: Sys, n: Name)
    requires RootOpen(s.meta) && s.locks == map[] && (ROOT_INODE, n) !in s.meta.dir && |n| <= MAX_NAME_LENGTH
    ensures CanCreate(s, ROOT_INODE, n, ADMIN)
  {}

  lemma StaysOpen(m: Meta, m': Meta)
    requires RootOpen(m) && (Stamped(m, m', ROOT_INODE) || SameRow(m.attrs, m'.attrs, ROOT_INODE))
    ensures RootOpen(m')
  {
    hide CheckAccess;
  }

  lemma StaysIdle(s: Sys, labels: seq<Label>, s': Sys)
    requires Inv(s) && Leads(s, labels, s') && s'.crash.None? && s'.locks == map[] && RootOpen(s'.meta)
    ensures Idle(s')
  {
    hide Inv, Leads, RootOpen;
    LeadsIsRun(s, labels, s');
    RunKeepsInv(s, labels);
  }

  lemma FreshWhenIdle(s: Sys)
    requires Idle(s)
    ensures FreshOk(s)
  {}

  lemma CreateRun(s: Sys, t: nat, g: nat, n: Name, mode: bv16, kind: FileKind, now: Timestamp) returns (s': Sys)
    requires Idle(s) && t !in s.txns && g in s.next && (ROOT_INODE, n) !in s.meta.dir && |n| <= MAX_NAME_LENGTH
    ensures Leads(s, Creating(t, g, n, mode, kind, now), s') && Idle(s')
    ensures var j := s.next[g];
            && j !in s.meta.attrs && j != ROOT_INODE && SameBut(s.meta, s'.meta, j)
            && s'.meta.dir == s.meta.dir[(ROOT_INODE, n) := Link(j, kind)]
            && j in s'.meta.attrs && IsNew(s'.meta.attrs[j], ADMIN, mode, kind)
            && s'.next == s.next[g := j + s.meta.numGroups] && s'.meta.numGroups == s.meta.numGroups
            && s'.txns == s.txns[t := Finished(Success)]
  {
    hide Inv, FreshOk, RootOpen, Leads, IsNew, CanCreate;
    FreshWhenIdle(s);
    var start := CreateStart(g, ROOT_INODE, n, 0, 0, mode, kind);
    var s1 := BeginRun(s, t, start);
    assert FreshOk(s1) by { StillFresh(s, t, start); }
    var s2 := InodeRun(s1, t, g, ROOT_INODE, n, ADMIN, mode, kind, now);
    StaysOpen(s.meta, s2.meta);
    RootCanCreate(s2, n);
    s' := EntryRun(s2, t, ROOT_INODE, n, ADMIN, kind, s.next[g], now);
    StaysOpen(s2.meta, s'.meta);
    Compose(s, [Begin(t, start)], s1, [TxnStep(t, now, 0, 0)], s2);
    Compose(s, [Begin(t, start)] + [TxnStep(t, now, 0, 0)], s2, [TxnStep(t, now, 0, 0)], s');
    StaysIdle(s, Creating(t, g, n, mode, kind, now), s');
  }

  lemma SameAfterStamp(m: Meta, m1: Meta, m': Meta, i: Inode)
    requires SameBut(m, m1, i) && Stamped(m1, m', ROOT_INODE)
    ensures SameBut(m, m', i)
  {
    forall j | j != i && j != ROOT_INODE
      ensures SameRow(m.attrs, m'.attrs, j)
    {
      assert SameRow(m.attrs, m1.attrs, j);
    }
  }

  // ------------------------------------------------------------------ linking a file once more

  function Linking(t: nat, f: Inode, n: Name, now: Timestamp): seq<Label> {
    [Begin(t, HardlinkStart(f, ROOT_INODE, n, ADMIN))] + [TxnStep(t, now, 0, 0)] + [TxnStep(t, now, 0, 0)]
  }

  lemma IncrementRun(s: Sys, t: nat, f: Inode, n: Name, now: Timestamp) returns (s': Sys)
    requires s.crash.None? && s.locks == map[] && RootOpen(s.meta)
    requires t in s.txns && s.txns[t] == HardlinkStart(f, ROOT_INODE, n, ADMIN)
    requires f in s.meta.attrs && s.meta.attrs[f].kind == File && f != ROOT_INODE
    ensures Leads(s, [TxnStep(t, now, 0, 0)], s') && s'.crash.None? && s'.locks == map[] && RootOpen(s'.meta)
    ensures && SameBut(s.meta, s'.meta, f) && s'.meta.dir == s.meta.dir && s'.next == s.next
            && f in s'.meta.attrs && s'.meta.attrs[f].kind == File
            && s'.meta.attrs[f].hardlinks == s.meta.attrs[f].hardlinks + 1
            && var undo := s.meta.attrs[f].lastMetadataChanged;
               s'.txns == s.txns[t := HardlinkLinking(f, ROOT_INODE, n, ADMIN, File, undo)]
  {
    hide Allows, CommitOwner, CommitXattr, CommitLink, CommitInode, Enabled, Apply, Leads, DirectoryEntries;
    Executed(s, t, now, 0, 0, HardlinkIncrement(f));
    s' := Apply(s, TxnStep(t, now, 0, 0));
    OneStep(s, TxnStep(t, now, 0, 0));
  }

  lemma HardlinkRun(s: Sys, t: nat, f: Inode, n: Name, now: Timestamp) returns (s': Sys)
    requires Idle(s) && t !in s.txns && (ROOT_INODE, n) !in s.meta.dir && |n| <= MAX_NAME_LENGTH
    requires f in s.meta.attrs && s.meta.attrs[f].kind == File && f != ROOT_INODE
    ensures Leads(s, Linking(t, f, n, now), s') && Idle(s')
    ensures && SameBut(s.meta, s'.meta, f) && s'.meta.dir == s.meta.dir[(ROOT_INODE, n) := Link(f, File)]
            && f in s'.meta.attrs && s'.meta.attrs[f].kind == File
            && s'.meta.attrs[f].hardlinks == s.meta.attrs[f].hardlinks + 1
            && s'.txns == s.txns[t := Finished(Success)]
  {
    hide Inv, RootOpen, Leads;
    var start := HardlinkStart(f, ROOT_INODE, n, ADMIN);
    var s1 := BeginRun(s, t, start);
    var s2 := IncrementRun(s1, t, f, n, now);
    RootCanCreate(s2, n);
    s' := EntryRun(s2, t, ROOT_INODE, n, ADMIN, File, f, now);
    StaysOpen(s2.meta, s'.meta);
    SameAfterStamp(s.meta, s2.meta, s'.meta, f);
    Compose(s, [Begin(t, start)], s1, [TxnStep(t, now, 0, 0)], s2);
    Compose(s, [Begin(t, start)] + [TxnStep(t, now, 0, 0)], s2, [TxnStep(t, now, 0, 0)], s');
    StaysIdle(s, Linking(t, f, n, now), s');
  }

  // ------------------------------------------------------------------ the phases of rmdir

  function Finding(t: nat, n: Name, now: Timestamp): seq<Label> {
    [Begin(t, RmdirStart(ROOT_INODE, n, ADMIN))] + [TxnStep(t, now, 0, 0)]
  }

  /** rmdir looks up its name, which is that of a directory. */
  lemma FindRun(s: Sys, t: nat, n: Name, now: Timestamp) returns (s': Sys)
    requires Idle(s) && t !in s.txns && |n| <= MAX_NAME_LENGTH
    requires (ROOT_INODE, n) in s.meta.dir && s.meta.dir[(ROOT_INODE, n)].kind == Directory
    ensures Leads(s, Finding(t, n, now), s') && Idle(s')
    ensures var i := s.meta.dir[(ROOT_INODE, n)].inode;
            s' == s.(txns := s.txns[t := RemovalLocking(RemoveDir, ROOT_INODE, n, ADMIN, i)])
  {
    hide Inv, Enabled, Apply, Leads, Allows;
    var start := RmdirStart(ROOT_INODE, n, ADMIN);
    var s1 := BeginRun(s, t, start);
    ReadBy(s1, t, now, 0, 0, Ok(InodeId(s.meta.dir[(ROOT_INODE, n)].inode)));
    s' := Apply(s1, TxnStep(t, now, 0, 0));
    OneStep(s1, TxnStep(t, now, 0, 0));
    Compose(s, [Begin(t, start)], s1, [TxnStep(t, now, 0, 0)], s');
    StaysIdle(s, Finding(t, n, now), s');
  }

  function Attempt(t: nat, now: Timestamp): seq<Label> {
    [TxnStep(t, now, 0, 0)] + [TxnStep(t, now, 0, 0)] + [TxnStep(t, now, 0, 0)] + [TxnStep(t, now, 0, 0)]
  }

  /** rmdir takes the lock. */
  lemma LockRun(s: Sys, t: nat, n: Name, i: Inode, now: Timestamp) returns (s': Sys)
    requires s.crash.None? && s.locks == map[] && t in s.txns
    requires Now(s, t) == RemovalLocking(RemoveDir, ROOT_INODE, n, ADMIN, i)
    ensures Leads(s, [TxnStep(t, now, 0, 0)], s')
    ensures s' == s.(locks := map[i := 0], txns := s.txns[t := RemovalReading(RemoveDir, ROOT_INODE, n, ADMIN, i, 0)])
  {
    hide Enabled, Apply, Leads, ResumeRename;
    LockedBy(s, t, now, 0, 0, i);
    s' := Apply(s, TxnStep(t, now, 0, 0));
    OneStep(s, TxnStep(t, now, 0, 0));
  }

  /** Reads a file, or an empty directory. */
  lemma ReadRun(s: Sys, t: nat, n: Name, i: Inode, now: Timestamp) returns (s': Sys)
    requires s.crash.None? && t in s.txns && s.txns[t] == RemovalReading(RemoveDir, ROOT_INODE, n, ADMIN, i, 0)
    requires i in s.meta.attrs && (s.meta.attrs[i].kind == Directory ==> DirectoryEntries(s.meta, i) == 0)
    ensures Leads(s, [TxnStep(t, now, 0, 0)], s')
    ensures s' == s.(txns := s.txns[t := RemovalTrying(RemoveDir, ROOT_INODE, n, ADMIN, i, 0, s.meta.attrs[i].uid)])
  {
    hide Enabled, Apply, Leads, ResumeRename, EntriesOf;
    ReadBy(s, t, now, 0, 0, GetAttributes(s.meta, i));
    s' := Apply(s, TxnStep(t, now, 0, 0));
    OneStep(s, TxnStep(t, now, 0, 0));
  }

  /** Removes the entry if it still points at that inode. */
  lemma TryRun(s: Sys, t: nat, n: Name, i: Inode, uid: nat, now: Timestamp) returns (s': Sys)
    requires s.crash.None? && s.locks == map[i := 0] && i != ROOT_INODE && t in s.txns && RootOpen(s.meta)
    requires s.txns[t] == RemovalTrying(RemoveDir, ROOT_INODE, n, ADMIN, i, 0, uid) && (ROOT_INODE, n) in s.meta.dir
    ensures Leads(s, [TxnStep(t, now, 0, 0)], s') && s'.crash.None? && s'.locks == s.locks && s'.next == s.next
    ensures s'.spoiled == s.spoiled
    ensures var k := (ROOT_INODE, n); var j := s.meta.dir[k].inode;
            && RootOpen(s'.meta) && SameBut(s.meta, s'.meta, ROOT_INODE) && (j != i ==> s'.meta == s.meta)
            && s'.meta.dir == (if j == i then s.meta.dir - {k} else s.meta.dir)
            && s'.meta.numGroups == s.meta.numGroups
            && var cont := if j == i then Drop(i) else Again(j);
               s'.txns == s.txns[t := RemovalUnlocking(RemoveDir, ROOT_INODE, n, ADMIN, i, 0, cont)]
  {
    hide CheckAccess, Sticky, CommitOwner, CommitAttr, CommitXattr, CommitInode, Enabled, Apply, Leads, ResumeRename;
    Executed(s, t, now, 0, 0, RemoveLink(ROOT_INODE, n, Some(InodeUidPair(i, uid)), None, ADMIN));
    s' := Apply(s, TxnStep(t, now, 0, 0));
    OneStep(s, TxnStep(t, now, 0, 0));
  }

  lemma UnlockRun(s: Sys, t: nat, n: Name, i: Inode, cont: Cont, now: Timestamp) returns (s': Sys)
    requires s.crash.None? && s.locks == map[i := 0] && t in s.txns
    requires s.txns[t] == RemovalUnlocking(RemoveDir, ROOT_INODE, n, ADMIN, i, 0, cont) && !cont.Give?
    ensures Leads(s, [TxnStep(t, now, 0, 0)], s')
    ensures s' == s.(locks := map[],
                     txns := s.txns[t := if cont.Drop? then RmdirChecking(cont.inode)
                                         else RemovalLocking(RemoveDir, ROOT_INODE, n, ADMIN, cont.inode)])
  {
    hide Enabled, Apply, Leads, ResumeRename;
    UnlockedBy(s, t, now, 0, 0, i, 0);
    s' := Apply(s, TxnStep(t, now, 0, 0));
    OneStep(s, TxnStep(t, now, 0, 0));
  }

  /** One round of rmdir: it removes the entry if it points at the inode it has locked, and goes on to
      what the entry points at if it does not. */
  lemma AttemptRun(s: Sys, t: nat, n: Name, i: Inode, now: Timestamp) returns (s': Sys)
    requires Idle(s) && t in s.txns && s.txns[t] == RemovalLocking(RemoveDir, ROOT_INODE, n, ADMIN, i)
    requires i in s.meta.attrs && i != ROOT_INODE
    requires s.meta.attrs[i].kind == Directory ==> DirectoryEntries(s.meta, i) == 0
    requires (ROOT_INODE, n) in s.meta.dir
    ensures Leads(s, Attempt(t, now), s') && Idle(s') && s'.next == s.next && s'.meta.numGroups == s.meta.numGroups
    ensures var k := (ROOT_INODE, n); var j := s.meta.dir[k].inode;
            if j == i then
              && SameBut(s.meta, s'.meta, ROOT_INODE) && s'.meta.dir == s.meta.dir - {k}
              && s'.txns == s.txns[t := RmdirChecking(i)]
            else s' == s.(txns := s.txns[t := RemovalLocking(RemoveDir, ROOT_INODE, n, ADMIN, j)])
  {
    hide Inv, RootOpen, Leads, DirectoryEntries;
    var step := [TxnStep(t, now, 0, 0)];
    var s1 := LockRun(s, t, n, i, now);
    var s2 := ReadRun(s1, t, n, i, now);
    var s3 := TryRun(s2, t, n, i, s.meta.attrs[i].uid, now);
    s' := UnlockRun(s3, t, n, i, s3.txns[t].cont, now);
    Compose(s, step, s1, step, s2);
    Compose(s, step + step, s2, step, s3);
    Compose(s, step + step + step, s3, step, s');
    StaysIdle(s, Attempt(t, now), s');
  }

  /** Both links of a file are given back. */
  lemma DropRun(s: Sys, t: nat, f: Inode, now: Timestamp) returns (s': Sys)
    requires s.crash.None? && s.locks == map[] && t in s.txns && s.txns[t] == RemovalDropping(RemoveDir, f)
    requires f in s.meta.attrs && s.meta.attrs[f].kind == File && s.meta.attrs[f].hardlinks == 2
    ensures Leads(s, [TxnStep(t, now, 0, 0)], s')
    ensures s'.crash.None? && s'.locks == map[] && s'.meta.dir == s.meta.dir && f !in s'.meta.attrs
            && s'.txns == s.txns[t := Finished(Success)] && SameBut(s.meta, s'.meta, f)
            && (f != ROOT_INODE && RootOpen(s.meta) ==> RootOpen(s'.meta))
  {
    hide CommitOwner, CommitAttr, CommitXattr, CommitLink, Enabled, Apply, Leads, ResumeRename, ResumeRemoval,
         DirectoryEntries, Allows;
    Executed(s, t, now, 0, 0, DecrementInode(f, 2, None));
    s' := Apply(s, TxnStep(t, now, 0, 0));
    OneStep(s, TxnStep(t, now, 0, 0));
  }

  // ------------------------------------------------------------------ the complete runs

  lemma NewIsIdle(s: Sys)
    requires Initial(s)
    ensures Idle(s) && s.meta.dir == map[] && s.txns == map[]
  {
    InitialInv(s);
  }

  /** A directory is made, rmdir is called on it and removes its entry; then a client who may still
      reach the directory makes a file in it. */
  function NonEmptyRun(g: nat, d: Inode, now: Timestamp): seq<Label> {
    Creating(0, g, "x", 0x1FF, Directory, now) + Finding(1, "x", now) + Attempt(1, now)
    + Race(1, 2, g, d, "z", ADMIN, now)
  }

  lemma EmptiedRun(s: Sys, g: nat, now: Timestamp) returns (s': Sys)
    requires Initial(s) && g in s.next
    ensures Leads(s, Creating(0, g, "x", 0x1FF, Directory, now) + Finding(1, "x", now) + Attempt(1, now), s')
    ensures Idle(s')
    ensures var d := s.next[g];
            && g in s'.next && s'.meta.dir == map[] && d != ROOT_INODE
            && d in s'.meta.attrs && IsNew(s'.meta.attrs[d], ADMIN, 0x1FF, Directory)
            && 1 in s'.txns && s'.txns[1] == RmdirChecking(d) && 2 !in s'.txns
  {
    hide Inv, RootOpen, Leads, Creating, Finding, Attempt, IsNew, Initial;
    NewIsIdle(s);
    var d := s.next[g];
    var s1 := CreateRun(s, 0, g, "x", 0x1FF, Directory, now);
    assert s1.meta.dir == map[(ROOT_INODE, "x") := Link(d, Directory)];
    var s2 := FindRun(s1, 1, "x", now);
    assert s2.meta.attrs[d].kind == Directory by { NewKind(s2.meta.attrs[d], ADMIN, 0x1FF, Directory); }
    NoEntries(s2.meta.dir, d);
    s' := AttemptRun(s2, 1, "x", d, now);
    assert SameRow(s2.meta.attrs, s'.meta.attrs, d);
    Compose(s, Creating(0, g, "x", 0x1FF, Directory, now), s1, Finding(1, "x", now), s2);
    Compose(s, Creating(0, g, "x", 0x1FF, Directory, now) + Finding(1, "x", now), s2, Attempt(1, now), s');
  }

  lemma NewKind(a: Attr, c: UserContext, mode: bv16, kind: FileKind)
    requires IsNew(a, c, mode, kind)
    ensures a.kind == kind && a.hardlinks == LinksAtBirth(kind)
  {}

  lemma NoEntries(dir: map<DirKey, Link>, d: Inode)
    requires forall k: DirKey :: k in dir ==> k.0 != d
    ensures |EntriesOf(dir, d)| == 0
  {
    assert EntriesOf(dir, d) == {};
  }

  lemma NewDirectoryIsOpen(a: Attr)
    requires IsNew(a, ADMIN, 0x1FF, Directory)
    ensures Allows(a, ADMIN, X_OK) && Allows(a, ADMIN, W_OK)
  {
    assert WithoutSetId(0x1FF) == 0x1FF;
  }

  /** The stop on a directory that is not empty happens in a run from a new filesystem. */
  lemma NonEmptyStopIsReachable(s: Sys, g: nat, now: Timestamp)
    requires Initial(s) && g in s.next
    ensures var run := NonEmptyRun(g, s.next[g], now);
            ValidRun(s, run) && Leads(s, run, Run(s, run)) && Run(s, run).crash == Some(Crash(NonEmptyDirectoryDeleted))
  {
    hide RootOpen, Leads, Creating, Finding, Attempt, Race, IsNew, Initial, LocksOk, FreshOk, Knows, Allows;
    var d := s.next[g];
    var s1 := EmptiedRun(s, g, now);
    NewKind(s1.meta.attrs[d], ADMIN, 0x1FF, Directory);
    NewDirectoryIsOpen(s1.meta.attrs[d]);
    var s2 := RaceStops(s1, 1, 2, g, d, "z", ADMIN, now);
    Compose(s, Creating(0, g, "x", 0x1FF, Directory, now) + Finding(1, "x", now) + Attempt(1, now), s1,
            Race(1, 2, g, d, "z", ADMIN, now), s2);
    LeadsIsRun(s, NonEmptyRun(g, d, now), s2);
  }

  /** A directory is made under "x".  Two rmdirs find it; the second removes the entry.  A file is made
      under "x".  The first rmdir comes back, finds the directory no longer there, and turns to the file. */
  function SwappedRun(g: nat, now: Timestamp): seq<Label> {
    Creating(0, g, "x", 0x1FF, Directory, now) + Finding(1, "x", now) + Finding(2, "x", now) + Attempt(2, now)
    + Creating(3, g, "x", 0, File, now)
  }

  function LossSteps(f: Inode, now: Timestamp): seq<Label> {
    Linking(4, f, "y", now) + (Attempt(1, now) + Attempt(1, now)) + [TxnStep(1, now, 0, 0)] + [TxnStep(1, now, 0, 0)]
  }

  /** The file is linked under "y" as well; then the first rmdir goes on to the end. */
  function LostLinkRun(g: nat, f: Inode, now: Timestamp): seq<Label> {
    SwappedRun(g, now) + LossSteps(f, now)
  }

  /** The file has one link; then the first rmdir goes on. */
  function OneLinkRun(g: nat, now: Timestamp): seq<Label> {
    SwappedRun(g, now) + (Attempt(1, now) + Attempt(1, now)) + [TxnStep(1, now, 0, 0)]
  }

  /** The first rmdir is about to lock directory d, and "x" is the name of file f. */
  ghost predicate Swapped(s: Sys, d: Inode, f: Inode) {
    && Idle(s) && d != ROOT_INODE && f != ROOT_INODE && d != f
    && s.meta.dir == map[(ROOT_INODE, "x") := Link(f, File)]
    && d in s.meta.attrs && s.meta.attrs[d].kind == Directory
    && f in s.meta.attrs && s.meta.attrs[f].kind == File && s.meta.attrs[f].hardlinks == 1
    && s.txns == map[0 := Finished(Success), 1 := RemovalLocking(RemoveDir, ROOT_INODE, "x", ADMIN, d),
                     2 := RmdirChecking(d), 3 := Finished(Success)]
  }

  lemma SwapRun(s: Sys, g: nat, now: Timestamp) returns (s': Sys)
    requires Initial(s) && g in s.next
    ensures Leads(s, SwappedRun(g, now), s') && Swapped(s', s.next[g], s.next[g] + s.meta.numGroups)
  {
    hide Inv, RootOpen, Leads, Creating, Finding, Attempt, Initial, WithoutSetId;
    NewIsIdle(s);
    var d := s.next[g];
    var f := d + s.meta.numGroups;
    var s1 := CreateRun(s, 0, g, "x", 0x1FF, Directory, now);
    assert s1.meta.dir == map[(ROOT_INODE, "x") := Link(d, Directory)];
    var s2 := FindRun(s1, 1, "x", now);
    var s3 := FindRun(s2, 2, "x", now);
    NoEntries(s3.meta.dir, d);
    var s4 := AttemptRun(s3, 2, "x", d, now);
    assert SameRow(s3.meta.attrs, s4.meta.attrs, d);
    s' := CreateRun(s4, 3, g, "x", 0, File, now);
    assert SameRow(s4.meta.attrs, s'.meta.attrs, d);
    var dir, find1, find2 := Creating(0, g, "x", 0x1FF, Directory, now), Finding(1, "x", now), Finding(2, "x", now);
    Compose(s, dir, s1, find1, s2);
    Compose(s, dir + find1, s2, find2, s3);
    Compose(s, dir + find1 + find2, s3, Attempt(2, now), s4);
    Compose(s, dir + find1 + find2 + Attempt(2, now), s4, Creating(3, g, "x", 0, File, now), s');
  }

  /** Two rounds of the first rmdir: the directory is not there any more, so it removes the file. */
  lemma RetryRun(s: Sys, d: Inode, f: Inode, now: Timestamp) returns (s': Sys)
    requires Idle(s) && d != ROOT_INODE && f != ROOT_INODE && d != f
    requires 1 in s.txns && s.txns[1] == RemovalLocking(RemoveDir, ROOT_INODE, "x", ADMIN, d)
    requires (ROOT_INODE, "x") in s.meta.dir && s.meta.dir[(ROOT_INODE, "x")] == Link(f, File)
    requires d in s.meta.attrs && DirectoryEntries(s.meta, d) == 0 && f in s.meta.attrs && s.meta.attrs[f].kind == File
    ensures Leads(s, Attempt(1, now) + Attempt(1, now), s') && Idle(s')
    ensures s'.txns == s.txns[1 := RmdirChecking(f)] && s'.meta.dir == s.meta.dir - {(ROOT_INODE, "x")}
    ensures f in s'.meta.attrs && s'.meta.attrs[f] == s.meta.attrs[f]
  {
    hide Inv, RootOpen, Leads, Attempt, DirectoryEntries;
    var s1 := AttemptRun(s, 1, "x", d, now);
    s' := AttemptRun(s1, 1, "x", f, now);
    assert SameRow(s1.meta.attrs, s'.meta.attrs, f);
    assert s'.txns == s.txns[1 := RmdirChecking(f)];
    Compose(s, Attempt(1, now), s1, Attempt(1, now), s');
  }

  /** The system runs on, and this name in the root directory points at an inode that is gone. */
  ghost predicate Dangles(s: Sys, n: Name) {
    s.crash.None? && (ROOT_INODE, n) in s.meta.dir && s.meta.dir[(ROOT_INODE, n)].inode !in s.meta.attrs
  }

  /** The file gets its second name, the first rmdir takes the first, and gives back both links. */
  lemma LossRun(s: Sys, d: Inode, f: Inode, now: Timestamp) returns (s': Sys)
    requires Swapped(s, d, f)
    ensures Leads(s, LossSteps(f, now), s')
    ensures Dangles(s', "y") && s'.locks == map[] && RootOpen(s'.meta) && 5 !in s'.txns
  {
    hide Inv, RootOpen, Leads, Attempt, Linking, DirectoryEntries;
    var step := [TxnStep(1, now, 0, 0)];
    var s2 := HardlinkRun(s, 4, f, "y", now);
    assert SameRow(s.meta.attrs, s2.meta.attrs, d);
    assert DirectoryEntries(s2.meta, d) == 0 by { NoEntriesIn(s2.meta, d); }
    var s3 := RetryRun(s2, d, f, now);
    var s4 := CheckRun(s3, 1, f, now);
    s' := DropRun(s4, 1, f, now);
    Compose(s, Linking(4, f, "y", now), s2, Attempt(1, now) + Attempt(1, now), s3);
    Compose(s, Linking(4, f, "y", now) + (Attempt(1, now) + Attempt(1, now)), s3, step, s4);
    Compose(s, Linking(4, f, "y", now) + (Attempt(1, now) + Attempt(1, now)) + step, s4, step, s');
  }

  lemma LossFromStart(s: Sys, g: nat, now: Timestamp) returns (s': Sys)
    requires Initial(s) && g in s.next
    ensures Leads(s, LostLinkRun(g, s.next[g] + s.meta.numGroups, now), s')
    ensures Dangles(s', "y") && s'.locks == map[] && RootOpen(s'.meta) && 5 !in s'.txns
  {
    hide Swapped, Leads, Attempt, Linking, SwappedRun, Initial, Dangles, RootOpen;
    var d, f := s.next[g], s.next[g] + s.meta.numGroups;
    var s1 := SwapRun(s, g, now);
    s' := LossRun(s1, d, f, now);
    Compose(s, SwappedRun(g, now), s1, LossSteps(f, now), s');
  }

  /** From a new filesystem: rmdir deletes a file that has another name, and that name dangles. */
  lemma LinkLossIsReachable(s: Sys, g: nat, now: Timestamp)
    requires Initial(s) && g in s.next
    ensures var run := LostLinkRun(g, s.next[g] + s.meta.numGroups, now);
            ValidRun(s, run) && Leads(s, run, Run(s, run)) && Dangles(Run(s, run), "y")
  {
    hide Leads, LostLinkRun, Initial, Dangles, RootOpen;
    var s' := LossFromStart(s, g, now);
    LeadsIsRun(s, LostLinkRun(g, s.next[g] + s.meta.numGroups, now), s');
  }

  /** Then somebody unlinks the name that dangles. */
  function UnlinkRun(g: nat, f: Inode, now: Timestamp): seq<Label> {
    LostLinkRun(g, f, now)
    + ([Begin(5, UnlinkStart(ROOT_INODE, "y", ADMIN))] + [TxnStep(5, now, 0, 0)] + [TxnStep(5, now, 0, 0)])
  }

  /** The entry is removed. */
  lemma RemoveRun(s: Sys, t: nat, n: Name, now: Timestamp) returns (s': Sys)
    requires s.crash.None? && s.locks == map[] && RootOpen(s.meta) && t in s.txns
    requires s.txns[t] == UnlinkStart(ROOT_INODE, n, ADMIN) && (ROOT_INODE, n) in s.meta.dir
    ensures Leads(s, [TxnStep(t, now, 0, 0)], s') && s'.crash.None? && s'.locks == map[]
    ensures var k := (ROOT_INODE, n);
            && s'.meta.dir == s.meta.dir - {k} && SameBut(s.meta, s'.meta, ROOT_INODE)
            && s'.txns == s.txns[t := RemovalDropping(UnlinkFile, s.meta.dir[k].inode)]
  {
    hide CheckAccess, Sticky, CommitOwner, CommitAttr, CommitXattr, CommitInode, Enabled, Apply, Leads, ResumeRename,
         ResumeRemoval;
    Executed(s, t, now, 0, 0, RemoveLink(ROOT_INODE, n, None, None, ADMIN));
    s' := Apply(s, TxnStep(t, now, 0, 0));
    OneStep(s, TxnStep(t, now, 0, 0));
  }

  /** The inode is gone. */
  lemma MissRun(s: Sys, t: nat, i: Inode, now: Timestamp) returns (s': Sys)
    requires s.crash.None? && s.locks == map[] && t in s.txns && Now(s, t) == RemovalDropping(UnlinkFile, i)
    requires i !in s.meta.attrs
    ensures Leads(s, [TxnStep(t, now, 0, 0)], s')
    ensures s' == s.(txns := s.txns[t := Finished(Failure(InodeDoesNotExist))])
  {
    hide CommitOwner, CommitAttr, CommitXattr, CommitLink, Enabled, Apply, Leads, ResumeRename, ResumeRemoval;
    Executed(s, t, now, 0, 0, DecrementInode(i, 1, None));
    s' := Apply(s, TxnStep(t, now, 0, 0));
    OneStep(s, TxnStep(t, now, 0, 0));
  }

  /** From a new filesystem: an unlink reports failure although it has removed the entry. */
  lemma ChangedYetFailedIsReachable(s: Sys, g: nat, now: Timestamp)
    requires Initial(s) && g in s.next
    ensures var run := UnlinkRun(g, s.next[g] + s.meta.numGroups, now);
            && ValidRun(s, run) && Leads(s, run, Run(s, run))
            && Run(s, run).crash.None? && (ROOT_INODE, "y") !in Run(s, run).meta.dir
            && 5 in Run(s, run).txns && Run(s, run).txns[5] == Finished(Failure(InodeDoesNotExist))
  {
    hide Leads, LostLinkRun, Initial, RootOpen;
    var f := s.next[g] + s.meta.numGroups;
    var start, step := [Begin(5, UnlinkStart(ROOT_INODE, "y", ADMIN))], [TxnStep(5, now, 0, 0)];
    var s1 := LossFromStart(s, g, now);
    var s2 := BeginRun(s1, 5, UnlinkStart(ROOT_INODE, "y", ADMIN));
    var s3 := RemoveRun(s2, 5, "y", now);
    var i := s1.meta.dir[(ROOT_INODE, "y")].inode;
    assert i !in s3.meta.attrs by {
      RootIsLive(s1.meta);
      assert SameRow(s2.meta.attrs, s3.meta.attrs, i);
    }
    var s4 := MissRun(s3, 5, i, now);
    Compose(s1, start, s2, step, s3);
    Compose(s1, start + step, s3, step, s4);
    Compose(s, LostLinkRun(g, f, now), s1, start + step + step, s4);
    LeadsIsRun(s, UnlinkRun(g, f, now), s4);
  }

  lemma RootIsLive(m: Meta)
    requires RootOpen(m)
    ensures ROOT_INODE in m.attrs
  {}

  lemma NoEntriesIn(m: Meta, d: Inode)
    requires forall k: DirKey :: k in m.dir ==> k.0 != d
    ensures DirectoryEntries(m, d) == 0
  {
    NoEntries(m.dir, d);
  }

  /** From a new filesystem: rmdir ends up with a file that has one link, and fails its assertion. */
  lemma FileStopIsReachable(s: Sys, g: nat, now: Timestamp)
    requires Initial(s) && g in s.next
    ensures var run := OneLinkRun(g, now);
            ValidRun(s, run) && Leads(s, run, Run(s, run)) && Run(s, run).crash == Some(Crash(CoordinatorAssertion))
  {
    hide Inv, RootOpen, Leads, Attempt, SwappedRun, Initial, DirectoryEntries;
    var d, f := s.next[g], s.next[g] + s.meta.numGroups;
    var step := [TxnStep(1, now, 0, 0)];
    var s1 := SwapRun(s, g, now);
    assert DirectoryEntries(s1.meta, d) == 0 by { NoEntriesIn(s1.meta, d); }
    var s2 := RetryRun(s1, d, f, now);
    var s3 := CheckRun(s2, 1, f, now);
    Compose(s, SwappedRun(g, now), s1, Attempt(1, now) + Attempt(1, now), s2);
    Compose(s, SwappedRun(g, now) + (Attempt(1, now) + Attempt(1, now)), s2, step, s3);
    LeadsIsRun(s, OneLinkRun(g, now), s3);
  }
}
