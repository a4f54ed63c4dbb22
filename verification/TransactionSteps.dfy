/** Each step of create, hardlink, unlink and rmdir keeps the invariant. */
module TransactionSteps {
  import opened Types
  import opened Access
  import opened Metadata
  import opened Coordinator
  import opened Cluster
  import opened Invariant
  import opened LinkLedger

  // ------------------------------------------------------------------ what each step must establish

  /** The tables and the ledger are right, and so is what the other transactions are owed. */
  ghost predicate Good(s: Sys, t: nat, m': Meta, txn': Txn) {
    && RootOk(m') && EntriesOk(m', s.spoiled)
    && (forall u :: u in s.txns && u != t ==> OwedOk(m', s.txns[u], s.spoiled))
    && TxnOk(m', txn', s.spoiled)
    && LedgerOk(m', s.txns[t := txn'], s.spoiled)
  }

  /** A request was executed without a panic, and the transaction goes on with the same locks. */
  ghost predicate Fine(s: Sys, t: nat, choice: Inode, step: Step) {
    t in s.txns &&
    var next := Resume(s.txns[t], choice, step.outcome);
    && !step.outcome.Panicked?
    && next.Go?
    && Held(next.txn) == Held(s.txns[t])
    && Good(s, t, step.meta, next.txn)
  }

  /** So it is with the next request of transaction t, executed now. */
  ghost predicate NextFine(s: Sys, t: nat, choice: Inode, now: Timestamp) {
    t in s.txns && var a := ActionOf(s.txns[t], choice); a.Propose? && Fine(s, t, choice, Execute(s, a.request, now))
  }

  ghost predicate KeepsKinds(m: Meta, m': Meta) {
    forall i :: i in m.attrs ==> i in m'.attrs && m'.attrs[i].kind == m.attrs[i].kind
  }

  /** If no inode disappears or changes its kind, entries and debts stay right. */
  lemma KindsKept(s: Sys, t: nat, m': Meta)
    requires Inv(s) && KeepsKinds(s.meta, m')
    requires forall k :: k in m'.dir ==>
               (k in s.meta.dir && m'.dir[k] == s.meta.dir[k]) || m'.dir[k].inode in s.spoiled || EntryOk(m', m'.dir[k])
    ensures RootOk(m') && EntriesOk(m', s.spoiled)
    ensures forall u :: u in s.txns && u != t ==> OwedOk(m', s.txns[u], s.spoiled)
  {
    hide LedgerOk, LocksOk, FreshOk, SpoiledOk, Knows, OwedKindOk, Plus;
    forall k | k in m'.dir
      ensures m'.dir[k].inode in s.spoiled || EntryOk(m', m'.dir[k])
    {
      if k in s.meta.dir && m'.dir[k] == s.meta.dir[k] {
        assert m'.dir[k].inode in s.spoiled || EntryOk(s.meta, s.meta.dir[k]);
      }
    }
    forall u | u in s.txns && u != t
      ensures OwedOk(m', s.txns[u], s.spoiled)
    {
      assert TxnOk(s.meta, s.txns[u], s.spoiled);
    }
  }

  /** A step that changes nothing but the transaction's own state. */
  lemma QuietGood(s: Sys, t: nat, m': Meta, txn': Txn)
    requires Inv(s) && t in s.txns && SameCounts(s.meta, m') && m'.dir == s.meta.dir
    requires Plus(txn') == Plus(s.txns[t]) && Minus(txn') == Minus(s.txns[t])
    requires TxnOk(m', txn', s.spoiled)
    ensures Good(s, t, m', txn')
  {
    hide LocksOk, FreshOk, SpoiledOk, TxnOk, OwedOk, Plus, Minus;
    KindsKept(s, t, m');
    QuietSettles(s.meta, m', s.txns, t, txn', s.spoiled);
  }

  /** All rows of the attribute table but that of j keep their kinds and counts. */
  ghost predicate SameCountsBut(m: Meta, m': Meta, j: Inode) {
    && m'.dir == m.dir
    && (forall i :: i != j ==> (i in m.attrs <==> i in m'.attrs))
    && (forall i :: i != j && i in m.attrs ==>
          m'.attrs[i].kind == m.attrs[i].kind && m'.attrs[i].hardlinks == m.attrs[i].hardlinks)
  }

  /** What happens to the count of an inode that is or becomes spoiled does not matter. */
  lemma SpoiledGood(s: Sys, t: nat, m': Meta, txn': Txn, j: Inode, x: set<Inode>)
    requires Inv(s) && t in s.txns && j != ROOT_INODE && x == s.spoiled + {j}
    requires SameCountsBut(s.meta, m', j) && TxnOk(m', txn', x)
    requires forall i :: i != j ==> Balance(txn', i) == Balance(s.txns[t], i)
    ensures RootOk(m') && EntriesOk(m', x) && LedgerOk(m', s.txns[t := txn'], x)
    ensures forall u :: u in s.txns && u != t ==> OwedOk(m', s.txns[u], x)
  {
    hide LocksOk, FreshOk, SpoiledOk, LedgerOk, Knows, OwedKindOk, Balance;
    SpoiledSettles(s.meta, m', s.txns, t, txn', j, s.spoiled);
    forall k | k in m'.dir
      ensures m'.dir[k].inode in x || EntryOk(m', m'.dir[k])
    {
      assert s.meta.dir[k].inode in s.spoiled || EntryOk(s.meta, s.meta.dir[k]);
    }
    forall u | u in s.txns && u != t
      ensures OwedOk(m', s.txns[u], x)
    {
      assert TxnOk(s.meta, s.txns[u], s.spoiled);
    }
  }

  // ------------------------------------------------------------------ link requests on the tables

  ghost predicate Stamped(m: Meta, m': Meta, p: Inode) {
    && p in m.attrs && p in m'.attrs
    && m'.attrs == m.attrs[p := m'.attrs[p]]
    && m'.attrs[p] == m.attrs[p].(lastModified := m'.attrs[p].lastModified,
                                  lastMetadataChanged := m'.attrs[p].lastMetadataChanged)
    && m'.parents == m.parents && m'.xattrs == m.xattrs
  }

  /** Rewriting one directory's entries keeps all counts; with a right new entry the tables are right. */
  lemma TablesAfterLink(s: Sys, t: nat, m': Meta, k: DirKey, e: Link)
    requires Inv(s) && Stamped(s.meta, m', k.0) && m'.dir == s.meta.dir[k := e]
    requires e.inode in s.spoiled || EntryOk(s.meta, e)
    ensures SameCounts(s.meta, m')
    ensures RootOk(m') && EntriesOk(m', s.spoiled)
    ensures forall u :: u in s.txns && u != t ==> OwedOk(m', s.txns[u], s.spoiled)
  {
    hide LedgerOk, LocksOk, FreshOk, SpoiledOk, TxnsOk;
    KindsKept(s, t, m');
  }

  lemma TablesAfterUnlink(s: Sys, t: nat, m': Meta, k: DirKey)
    requires Inv(s) && Stamped(s.meta, m', k.0) && m'.dir == s.meta.dir - {k}
    ensures SameCounts(s.meta, m')
    ensures RootOk(m') && EntriesOk(m', s.spoiled)
    ensures forall u :: u in s.txns && u != t ==> OwedOk(m', s.txns[u], s.spoiled)
  {
    hide LedgerOk, LocksOk, FreshOk, SpoiledOk, TxnsOk;
    KindsKept(s, t, m');
  }

  lemma CreateLinkEffect(m: Meta, i: Inode, p: Inode, n: Name, c: UserContext, k: FileKind, now: Timestamp)
    ensures var step := CreateLinkStep(m, i, p, n, c, k, now);
            || (step.outcome.Err? && step.meta == m)
            || (&& step.outcome == Ok(Empty) && (p, n) !in m.dir
                && step.meta.dir == m.dir[(p, n) := Link(i, k)] && Stamped(m, step.meta, p))
  {
    hide Allows;
  }

  lemma RemoveLinkEffect(m: Meta, p: Inode, n: Name, known: Option<InodeUidPair>, c: UserContext, now: Timestamp)
    ensures var step := RemoveLinkStep(m, p, n, known, c, now);
            || (step.outcome.Err? && step.meta == m)
            || (&& (p, n) in m.dir && step.outcome == Ok(RemovedInode(m.dir[(p, n)].inode, false)) && step.meta == m)
            || (&& (p, n) in m.dir && step.outcome == Ok(RemovedInode(m.dir[(p, n)].inode, true))
                && (known.Some? ==> known.value.inode == m.dir[(p, n)].inode)
                && step.meta.dir == m.dir - {(p, n)} && Stamped(m, step.meta, p))
  {
    hide Allows, Sticky;
  }

  // ------------------------------------------------------------------ create and hardlink

  lemma CreateInodeFine(s: Sys, t: nat, now: Timestamp, choice: Inode)
    requires Inv(s) && t in s.txns && s.txns[t].CreateStart? && s.txns[t].group in s.next
    ensures Fine(s, t, choice, Execute(s, ActionOf(s.txns[t], choice).request, now))
    ensures s.next[s.txns[t].group] !in s.meta.attrs
  {
    hide LocksOk, LedgerOk, TxnsOk, EntriesOk, WithoutSetId, CommitOwner, CommitAttr, CommitXattr, CommitLink,
         ResumeRemoval, ResumeRename, RenameAction;
    var j := s.next[s.txns[t].group];
    assert j !in s.meta.attrs;
    var step := Execute(s, ActionOf(s.txns[t], choice).request, now);
    var txn' := Resume(s.txns[t], choice, step.outcome).txn;
    CreateSettles(s.meta, step.meta, s.txns, t, txn', j, s.spoiled);
    KindsKept(s, t, step.meta);
  }

  lemma LinkFine(s: Sys, t: nat, now: Timestamp, choice: Inode)
    requires Inv(s) && t in s.txns && (Now(s, t).CreateLinking? || Now(s, t).HardlinkLinking?)
    ensures NextFine(s, t, choice, now)
  {
    hide LocksOk, LedgerOk, FreshOk, SpoiledOk, CreateLinkStep, EntriesOk, RootOk, KeepsKinds, SameCounts,
         CommitOwner, CommitAttr, CommitXattr, CommitInode, ResumeRemoval, ResumeRename, RenameAction;
    var txn := s.txns[t];
    var p, n, i, k := txn.parent, txn.name, txn.inode, txn.kind;
    var step := CreateLinkStep(s.meta, i, p, n, txn.context, k, now);
    assert TxnOk(s.meta, txn, s.spoiled);
    CreateLinkEffect(s.meta, i, p, n, txn.context, k, now);
    LinkGood(s, t, choice, step, p, n, i, k);
  }

  lemma LinkGood(s: Sys, t: nat, choice: Inode, step: Step, p: Inode, n: Name, i: Inode, k: FileKind)
    requires Inv(s) && t in s.txns && (s.txns[t].CreateLinking? || s.txns[t].HardlinkLinking?)
    requires i == s.txns[t].inode && k == s.txns[t].kind
    requires || (step.outcome.Err? && step.meta == s.meta)
             || (&& step.outcome == Ok(Empty) && (p, n) !in s.meta.dir
                 && step.meta.dir == s.meta.dir[(p, n) := Link(i, k)] && Stamped(s.meta, step.meta, p))
    ensures Fine(s, t, choice, step)
  {
    hide LocksOk, LedgerOk, FreshOk, SpoiledOk, EntriesOk, RootOk, Stamped, SameCounts;
    var txn, txn' := s.txns[t], Resume(s.txns[t], choice, step.outcome).txn;
    assert TxnOk(s.meta, txn, s.spoiled);
    if step.outcome.Err? {
      assert SameCounts(s.meta, step.meta) by { SameCountsReflexive(s.meta); }
      QuietGood(s, t, step.meta, txn');
    } else {
      TablesAfterLink(s, t, step.meta, (p, n), Link(i, k));
      LinkSettles(s.meta, step.meta, s.txns, t, txn', (p, n), Link(i, k), s.spoiled);
    }
  }

  lemma SameCountsReflexive(m: Meta)
    ensures SameCounts(m, m)
  {}

  lemma HardlinkIncrementFine(s: Sys, t: nat, now: Timestamp, choice: Inode)
    requires Inv(s) && t in s.txns && Now(s, t).HardlinkStart? && KernelValidated(s.meta, Now(s, t))
    ensures NextFine(s, t, choice, now)
  {
    hide LocksOk, LedgerOk, FreshOk, SpoiledOk, DirectoryEntries, CommitOwner, CommitXattr, CommitLink, CommitInode,
         ResumeRemoval, ResumeRename, RenameAction;
    var txn := s.txns[t];
    var step := HardlinkIncrementStep(s.meta, txn.inode, now);
    var txn' := Resume(txn, choice, step.outcome).txn;
    if step.outcome.Err? {
      QuietGood(s, t, step.meta, txn');
    } else {
      assert txn.inode != ROOT_INODE;
      KindsKept(s, t, step.meta);
      CountSettles(s.meta, step.meta, s.txns, t, txn', txn.inode, 1, s.spoiled);
    }
  }

  lemma HardlinkRollbackFine(s: Sys, t: nat, now: Timestamp, choice: Inode)
    requires Inv(s) && t in s.txns && s.txns[t].HardlinkUndo?
    ensures var step := CommitMeta(s.meta, ActionOf(s.txns[t], choice).request, now);
            Fine(s, t, choice, step) || StopsOnSpoiled(s, s.txns[t].inode, step)
  {
    hide LocksOk, LedgerOk, FreshOk, SpoiledOk, EntriesOk, RootOk, HeldInRename, CommitOwner, CommitXattr, CommitLink,
         CommitInode, ResumeRemoval, ResumeRename, RenameAction;
    var txn := s.txns[t];
    assert TxnOk(s.meta, txn, s.spoiled);
    var step := HardlinkRollbackStep(s.meta, txn.inode, txn.undoTime);
    if txn.inode in s.spoiled {
      if !step.outcome.Panicked? {
        SpoiledFine(s, t, choice, txn.inode, step);
      }
    } else {
      LastReference(s, t, txn.inode, 1);
      var txn' := Resume(txn, choice, step.outcome).txn;
      KindsKept(s, t, step.meta);
      CountSettles(s.meta, step.meta, s.txns, t, txn', txn.inode, -1, s.spoiled);
    }
  }

  // ------------------------------------------------------------------ giving back a reference

  /** One way a decrement can stop the run: a directory is deleted that is not empty. */
  ghost predicate StopsOnNonEmpty(s: Sys, j: Inode, step: Step) {
    && step.outcome == Panicked(NonEmptyDirectoryDeleted)
    && j in s.meta.attrs && s.meta.attrs[j].kind == Directory && DirectoryEntries(s.meta, j) > 0
  }

  /** The other: a spoiled file has fewer links left than are given back. */
  ghost predicate StopsOnSpoiled(s: Sys, j: Inode, step: Step) {
    step.outcome == Panicked(LinkCountUnderflow) && j in s.spoiled && j in s.meta.attrs
  }

  /** Giving back a reference to a spoiled file, which may be gone. */
  lemma SpoiledFine(s: Sys, t: nat, choice: Inode, j: Inode, step: Step)
    requires Inv(s) && t in s.txns && j in s.spoiled
    requires (s.txns[t].CreateUndo? || s.txns[t].HardlinkUndo? || s.txns[t].RemovalDropping?) && s.txns[t].inode == j
    requires SameCountsBut(s.meta, step.meta, j) && !step.outcome.Panicked?
    ensures Fine(s, t, choice, step)
  {
    hide Inv, SameCountsBut, HeldInRename, ResumeRename, ResumeRemoval;
    var txn' := Resume(s.txns[t], choice, step.outcome).txn;
    assert s.spoiled + {j} == s.spoiled;
    NotRoot(s, j);
    SpoiledGood(s, t, step.meta, txn', j, s.spoiled);
  }

  lemma NotRoot(s: Sys, j: Inode)
    requires Inv(s) && j in s.spoiled
    ensures j != ROOT_INODE && (j in s.meta.attrs ==> s.meta.attrs[j].kind != Directory)
  {}

  /** Decrementing on behalf of a transaction that owes the inode a reference. */
  lemma DecrementGood(s: Sys, t: nat, j: Inode, count: nat, now: Timestamp, txn': Txn)
    requires Inv(s) && t in s.txns && Plus(s.txns[t]) == Some(j) && Minus(txn') == Minus(s.txns[t]) && Plus(txn').None?
    requires j in s.meta.attrs && j != ROOT_INODE && j !in s.spoiled
    requires count == 1 || (count == 2 && s.meta.attrs[j].kind == Directory)
    requires !StopsOnNonEmpty(s, j, DecrementStep(s.meta, j, count, now))
    ensures DecrementStep(s.meta, j, count, now).outcome == Ok(Empty)
    ensures var m' := DecrementStep(s.meta, j, count, now).meta; TxnOk(m', txn', s.spoiled) ==> Good(s, t, m', txn')
  {
    hide LocksOk, LedgerOk, FreshOk, SpoiledOk, Plus, Minus, TxnOk, DirectoryEntries, TxnsOk, EntriesTo;
    LastReference(s, t, j, count);
    var m' := DecrementStep(s.meta, j, count, now).meta;
    if s.meta.attrs[j].hardlinks == count {
      DeleteSettles(s.meta, m', s.txns, t, txn', j, s.spoiled);
      DeleteKeeps(s, t, m', j);
    } else {
      CountSettles(s.meta, m', s.txns, t, txn', j, -1, s.spoiled);
      KindsKept(s, t, m');
    }
  }

  /** Deleting an inode that nobody refers to leaves all entries and debts right. */
  lemma DeleteKeeps(s: Sys, t: nat, m': Meta, j: Inode)
    requires Inv(s) && j != ROOT_INODE && m'.attrs == s.meta.attrs - {j} && m'.dir == s.meta.dir
    requires EntriesTo(s.meta.dir, j) == 0
    requires forall u :: u in s.txns && u != t ==> Plus(s.txns[u]) != Some(j)
    ensures RootOk(m') && EntriesOk(m', s.spoiled)
    ensures forall u :: u in s.txns && u != t ==> OwedOk(m', s.txns[u], s.spoiled)
  {
    hide LedgerOk, LocksOk, FreshOk, SpoiledOk, Knows, OwedKindOk, Plus;
    forall k | k in m'.dir
      ensures m'.dir[k].inode in s.spoiled || EntryOk(m', m'.dir[k])
    {
      assert s.meta.dir[k].inode in s.spoiled || EntryOk(s.meta, s.meta.dir[k]);
      assert k !in EntrySet(s.meta.dir, j);
    }
    forall u | u in s.txns && u != t
      ensures OwedOk(m', s.txns[u], s.spoiled)
    {
      assert TxnOk(s.meta, s.txns[u], s.spoiled);
    }
  }

  lemma DropFine(s: Sys, t: nat, now: Timestamp, choice: Inode)
    requires Inv(s) && t in s.txns && (s.txns[t].CreateUndo? || s.txns[t].RemovalDropping?) && !DropsFile(s, t)
    ensures var step := CommitMeta(s.meta, ActionOf(s.txns[t], choice).request, now);
            || Fine(s, t, choice, step)
            || StopsOnSpoiled(s, s.txns[t].inode, step)
            || (&& StopsOnNonEmpty(s, s.txns[t].inode, step)
                && !(s.txns[t].RemovalDropping? && s.txns[t].job == UnlinkFile))
  {
    hide Inv, Fine, StopsOnSpoiled, StopsOnNonEmpty, DecrementStep, DropsFile, CommitOwner, CommitAttr, CommitXattr,
         CommitLink, RenameAction;
    var txn := s.txns[t];
    var count := if txn.CreateUndo? then txn.links else if txn.job == RemoveDir then 2 else 1;
    var step := DecrementStep(s.meta, txn.inode, count, now);
    if txn.inode in s.spoiled {
      DropSpoiled(s, t, choice, count, now);
    } else {
      DropOwed(s, t, choice, count, now);
    }
  }

  lemma DropSpoiled(s: Sys, t: nat, choice: Inode, count: nat, now: Timestamp)
    requires Inv(s) && t in s.txns && (s.txns[t].CreateUndo? || s.txns[t].RemovalDropping?)
    requires s.txns[t].inode in s.spoiled
    ensures var step := DecrementStep(s.meta, s.txns[t].inode, count, now);
            Fine(s, t, choice, step) || StopsOnSpoiled(s, s.txns[t].inode, step)
  {
    hide Inv, Fine, DecrementStep, SameCountsBut;
    var j := s.txns[t].inode;
    NotRoot(s, j);
    DecrementElsewhere(s.meta, j, count, now);
    if !DecrementStep(s.meta, j, count, now).outcome.Panicked? {
      SpoiledFine(s, t, choice, j, DecrementStep(s.meta, j, count, now));
    }
  }

  lemma DropOwed(s: Sys, t: nat, choice: Inode, count: nat, now: Timestamp)
    requires Inv(s) && t in s.txns && (s.txns[t].CreateUndo? || s.txns[t].RemovalDropping?)
    requires s.txns[t].inode !in s.spoiled
    requires !DropsFile(s, t)
    requires count == if s.txns[t].CreateUndo? then s.txns[t].links else if s.txns[t].job == RemoveDir then 2 else 1
    ensures var step := DecrementStep(s.meta, s.txns[t].inode, count, now);
            || Fine(s, t, choice, step)
            || (&& StopsOnNonEmpty(s, s.txns[t].inode, step)
                && !(s.txns[t].RemovalDropping? && s.txns[t].job == UnlinkFile))
  {
    hide LocksOk, LedgerOk, FreshOk, SpoiledOk, DirectoryEntries, EntriesOk, RootOk, Good, HeldInRename,
         DecrementStep, ResumeRemoval, ResumeRename;
    var txn := s.txns[t];
    assert TxnOk(s.meta, txn, s.spoiled);
    if StopsOnNonEmpty(s, txn.inode, DecrementStep(s.meta, txn.inode, count, now)) {
      LastReference(s, t, txn.inode, count);
      DecrementElsewhere(s.meta, txn.inode, count, now);
    } else {
      DecrementGood(s, t, txn.inode, count, now, Finished(if txn.CreateUndo? then Failure(txn.error) else Success));
    }
  }

  /** A decrement touches one row; on a file it can stop the run only by underflow. */
  lemma DecrementElsewhere(m: Meta, j: Inode, count: nat, now: Timestamp)
    ensures var step := DecrementStep(m, j, count, now);
            && SameCountsBut(m, step.meta, j)
            && (step.outcome.Panicked? && j in m.attrs && m.attrs[j].kind != Directory ==>
                  step.outcome == Panicked(LinkCountUnderflow) && m.attrs[j].hardlinks < count)
            && (step.outcome.Panicked? ==> j in m.attrs && m.attrs[j].hardlinks <= count)
  {
    hide DirectoryEntries;
  }

  // ------------------------------------------------------------------ removing an entry

  lemma UnlinkFine(s: Sys, t: nat, now: Timestamp, choice: Inode)
    requires Inv(s) && t in s.txns && (Now(s, t).UnlinkStart? || Now(s, t).RemovalTrying?)
    ensures NextFine(s, t, choice, now)
  {
    hide LocksOk, LedgerOk, FreshOk, SpoiledOk, RemoveLinkStep, EntriesOk, RootOk, CommitOwner, CommitAttr,
         CommitXattr, CommitInode, ResumeRename, RenameAction;
    var txn := s.txns[t];
    var known := if txn.UnlinkStart? then None else Some(InodeUidPair(txn.inode, txn.ownerUid));
    RemoveLinkEffect(s.meta, txn.parent, txn.name, known, txn.context, now);
    UnlinkGood(s, t, choice, RemoveLinkStep(s.meta, txn.parent, txn.name, known, txn.context, now), known);
  }

  lemma UnlinkGood(s: Sys, t: nat, choice: Inode, step: Step, known: Option<InodeUidPair>)
    requires Inv(s) && t in s.txns && (s.txns[t].UnlinkStart? || s.txns[t].RemovalTrying?)
    requires s.txns[t].RemovalTrying? ==> known == Some(InodeUidPair(s.txns[t].inode, s.txns[t].ownerUid))
    requires var m, k := s.meta, (s.txns[t].parent, s.txns[t].name);
             || (step.outcome.Err? && step.meta == m)
             || (k in m.dir && step.outcome == Ok(RemovedInode(m.dir[k].inode, false)) && step.meta == m)
             || (&& k in m.dir && step.outcome == Ok(RemovedInode(m.dir[k].inode, true))
                 && (known.Some? ==> known.value.inode == m.dir[k].inode)
                 && step.meta.dir == m.dir - {k} && Stamped(m, step.meta, k.0))
    ensures Fine(s, t, choice, step)
  {
    hide LocksOk, LedgerOk, FreshOk, SpoiledOk, RootOk, Stamped, SameCounts;
    var m, k := s.meta, (s.txns[t].parent, s.txns[t].name);
    var txn' := Resume(s.txns[t], choice, step.outcome).txn;
    assert TxnOk(m, s.txns[t], s.spoiled);
    if step.outcome.Err? || !step.outcome.response.complete {
      SameCountsReflexive(m);
      QuietGood(s, t, step.meta, txn');
    } else {
      assert m.dir[k].inode in s.spoiled || EntryOk(m, m.dir[k]);
      if m.dir[k].inode in s.spoiled {
        NotRoot(s, m.dir[k].inode);
      }
      TablesAfterUnlink(s, t, step.meta, k);
      UnlinkSettles(m, step.meta, s.txns, t, txn', k, s.spoiled);
      OwedAfterUnlink(m, step.meta, s.txns[t], txn', k, s.spoiled);
    }
  }

  /** The target of a removed entry is a live inode, or a spoiled one, that the transaction now owes a
      decrement. */
  lemma OwedAfterUnlink(m: Meta, m': Meta, txn: Txn, txn': Txn, k: DirKey, x: set<Inode>)
    requires txn.UnlinkStart? || txn.RemovalTrying?
    requires k in m.dir && SameCounts(m, m') && m'.dir == m.dir - {k} && m.dir[k].inode != ROOT_INODE && Knows(m, txn)
    requires m.dir[k].inode in x || EntryOk(m, m.dir[k])
    requires txn.RemovalTrying? ==> txn.inode == m.dir[k].inode
    requires Resume(txn, 0, Ok(RemovedInode(m.dir[k].inode, true))) == Go(txn')
    ensures TxnOk(m', txn', x) && Held(txn') == Held(txn)
  {
    assert !HasEntries(m, m.dir[k].inode) ==> !HasEntries(m', m.dir[k].inode);
  }
}
