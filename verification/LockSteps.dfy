/** Taking and releasing locks, and reading: steps that leave the tables alone. */
module LockSteps {
  import opened Types
  import opened Access
  import opened Metadata
  import opened Coordinator
  import opened Cluster
  import opened Invariant
  import opened LinkLedger
  import opened TransactionSteps

  /** The transaction goes on, owing the same references but for those to a spoiled file, and what it now
      relies on is true. */
  ghost predicate GoesOn(s: Sys, t: nat, next: Next) {
    && t in s.txns && next.Go?
    && (Plus(next.txn) == Plus(s.txns[t]) || (Plus(next.txn).None? && OwesSpoiled(s, t)))
    && Minus(next.txn) == Minus(s.txns[t])
    && TxnOk(s.meta, next.txn, s.spoiled)
  }

  predicate OwesSpoiled(s: Sys, t: nat) {
    t in s.txns && Plus(s.txns[t]).Some? && Plus(s.txns[t]).value in s.spoiled
  }

  // ------------------------------------------------------------------ reads

  /** An rmdir asserts that its inode has two links, and has a file with another number of them. */
  predicate ChecksFile(s: Sys, t: nat) {
    && t in s.txns && s.txns[t].RmdirChecking? && s.txns[t].inode in s.meta.attrs
    && s.meta.attrs[s.txns[t].inode].kind != Directory && s.meta.attrs[s.txns[t].inode].hardlinks != 2
  }

  /** The reads of a removal abort it only there. */
  lemma RemovalReadFine(s: Sys, t: nat, choice: Inode)
    requires Inv(s) && t in s.txns && (s.txns[t].RemovalReading? || s.txns[t].RmdirChecking?)
    ensures var next := Resume(s.txns[t], choice, GetAttributes(s.meta, s.txns[t].inode));
            if ChecksFile(s, t) then next.Abort? else GoesOn(s, t, next) && Held(next.txn) == Held(s.txns[t])
  {
    hide LocksOk, LedgerOk, FreshOk, SpoiledOk, EntriesOk, DirectoryEntries;
    assert TxnOk(s.meta, s.txns[t], s.spoiled);
    EntriesCounted(s.meta, s.txns[t].inode);
    if s.txns[t].RmdirChecking? {
      if s.txns[t].inode in s.spoiled {
        NotRoot(s, s.txns[t].inode);
      } else {
        LastReference(s, t, s.txns[t].inode, 1);
      }
    }
  }

  /** The lookups of a rename, under the locks of the directories. */
  lemma RenameLookupFine(m: Meta, a: RenameArgs, pc: RenamePc, choice: Inode)
    requires (pc.FindSource? || pc.FindTarget?) && RenameKnows(m, a, pc)
    ensures var o := if pc.FindSource? then LookupOutcome(m, a.parent, a.name, a.context)
                     else LookupOutcome(m, a.newParent, a.newName, a.context);
            var next := ResumeRename(a, pc, choice, o);
            && next.Go? && next.txn.Renaming? && next.txn.args == a
            && RenameKnows(m, a, next.txn.pc)
            && HeldInRename(a, next.txn.pc) == HeldInRename(a, pc)
            && !next.txn.pc.DropTarget? && !next.txn.pc.RemoveOld?
  {
    hide Allows;
    assert a.parent in HeldInRename(a, pc);
  }

  lemma RenameReadFine(m: Meta, a: RenameArgs, pc: RenamePc, choice: Inode)
    requires (pc.ReadParent? || pc.ReadNewParent? || pc.ReadSource? || pc.ReadTarget?) && RenameKnows(m, a, pc)
    ensures RenameAction(a, pc, choice).ReadAttr?
    ensures var next := ResumeRename(a, pc, choice, GetAttributes(m, RenameAction(a, pc, choice).inode));
            && next.Go? && next.txn.Renaming? && next.txn.args == a
            && RenameKnows(m, a, next.txn.pc)
            && HeldInRename(a, next.txn.pc) == HeldInRename(a, pc)
            && !next.txn.pc.DropTarget? && !next.txn.pc.RemoveOld?
  {
    hide Allows, EntriesOf, StickyForbids;
    assert a.parent in HeldInRename(a, pc);
  }

  // ------------------------------------------------------------------ locks

  lemma RenameLockFine(m: Meta, a: RenameArgs, pc: RenamePc, choice: Inode, id: LockId)
    requires (pc.LockParent? || pc.LockNewParent? || pc.LockSource? || pc.LockTarget?) && RenameKnows(m, a, pc)
    requires RenameAction(a, pc, choice).request.inode !in HeldInRename(a, pc)
    ensures var i := RenameAction(a, pc, choice).request.inode;
            var next := ResumeRename(a, pc, choice, Ok(LockGranted(id)));
            && next.Go? && next.txn.Renaming? && next.txn.args == a
            && RenameKnows(m, a, next.txn.pc)
            && HeldInRename(a, next.txn.pc) == HeldInRename(a, pc)[i := id]
            && !next.txn.pc.DropTarget? && !next.txn.pc.RemoveOld?
  {
    hide Allows;
  }

  /** A granted lock is added to those held, and what the transaction then knows is true. */
  lemma LockKnows(m: Meta, t: Txn, choice: Inode, id: LockId, i: Inode)
    requires Knows(m, t) && ActionOf(t, choice) == Propose(Lock(i)) && i !in Held(t)
    ensures var next := Resume(t, choice, Ok(LockGranted(id)));
            && next.Go? && Held(next.txn) == Held(t)[i := id] && Knows(m, next.txn)
            && Plus(next.txn) == Plus(t) == None && Minus(next.txn) == Minus(t)
  {
    hide RenameKnows, HeldInRename, ResumeRename;
    if t.Renaming? {
      RenameLockFine(m, t.args, t.pc, choice, id);
    }
  }

  lemma LockFine(s: Sys, t: nat, choice: Inode, id: LockId, i: Inode)
    requires Inv(s) && t in s.txns && ActionOf(s.txns[t], choice) == Propose(Lock(i)) && i !in s.locks
    ensures var next := Resume(s.txns[t], choice, Ok(LockGranted(id)));
            GoesOn(s, t, next) && Held(next.txn) == Held(s.txns[t])[i := id]
  {
    hide LedgerOk, FreshOk, SpoiledOk, EntriesOk, Knows, LocksOk, ActionOf, Resume, Held;
    assert TxnOk(s.meta, s.txns[t], s.spoiled);
    assert i !in Held(s.txns[t]) by { HeldIsLocked(s, t, i); }
    LockKnows(s.meta, s.txns[t], choice, id, i);
  }

  lemma HeldIsLocked(s: Sys, t: nat, i: Inode)
    requires LocksOk(s) && t in s.txns
    ensures i in Held(s.txns[t]) ==> i in s.locks && s.locks[i] == Held(s.txns[t])[i]
  {}

  /** An unlock releases exactly that lock. */
  lemma UnlockKnows(m: Meta, t: Txn, choice: Inode, i: Inode, id: LockId)
    requires Knows(m, t) && ActionOf(t, choice) == Propose(Unlock(i, id))
    ensures var next := Resume(t, choice, Ok(Empty));
            && next.Go? && Held(next.txn) == Held(t) - {i} && Knows(m, next.txn)
            && Plus(next.txn) == Plus(t) && Minus(next.txn) == Minus(t)
            && (Plus(t).Some? ==> forall kind :: OwedKindOk(t, kind) ==> OwedKindOk(next.txn, kind))
  {}

  lemma UnlockFine(s: Sys, t: nat, choice: Inode, i: Inode, id: LockId)
    requires Inv(s) && t in s.txns && ActionOf(s.txns[t], choice) == Propose(Unlock(i, id))
    ensures var next := Resume(s.txns[t], choice, Ok(Empty));
            GoesOn(s, t, next) && Held(next.txn) == Held(s.txns[t]) - {i}
  {
    hide LedgerOk, FreshOk, SpoiledOk, EntriesOk, LocksOk, Knows, ActionOf, Resume, Held, OwedKindOk, Plus, Minus;
    assert TxnOk(s.meta, s.txns[t], s.spoiled);
    UnlockKnows(s.meta, s.txns[t], choice, i, id);
  }

  /** Granting a free lock, releasing one's own, or keeping what one has keeps the table right. */
  lemma LocksGranted(s: Sys, s': Sys, t: nat, i: Inode, id: LockId)
    requires LocksOk(s) && t in s.txns && i !in s.locks && t in s'.txns
    requires s'.locks == s.locks[i := id] && s'.txns == s.txns[t := s'.txns[t]]
    requires Held(s'.txns[t]) == Held(s.txns[t])[i := id]
    ensures LocksOk(s')
  {
    hide Held, SomeoneHolds;
    forall j | j in s'.locks
      ensures SomeoneHolds(s'.txns, j)
    {
      if j == i {
        assert SomeoneHolds(s'.txns, j) by { Holds(s'.txns, t, j); }
      } else {
        StillHolds(s.txns, s'.txns, t, j);
      }
    }
  }

  lemma Holds(txns: map<nat, Txn>, t: nat, j: Inode)
    requires t in txns && j in Held(txns[t])
    ensures SomeoneHolds(txns, j)
  {}

  lemma StillHolds(txns: map<nat, Txn>, txns': map<nat, Txn>, t: nat, j: Inode)
    requires SomeoneHolds(txns, j) && t in txns' && txns' == txns[t := txns'[t]]
    requires t in txns && j in Held(txns[t]) ==> j in Held(txns'[t])
    ensures SomeoneHolds(txns', j)
  {
    hide Held;
    var u :| u in txns && j in Held(txns[u]);
    assert u in txns' && j in Held(txns'[u]);
  }

  lemma LocksReleased(s: Sys, s': Sys, t: nat, i: Inode)
    requires LocksOk(s) && t in s.txns && i in Held(s.txns[t]) && t in s'.txns
    requires s'.locks == s.locks - {i} && s'.txns == s.txns[t := s'.txns[t]]
    requires Held(s'.txns[t]) == Held(s.txns[t]) - {i}
    ensures LocksOk(s')
  {
    hide Held, SomeoneHolds;
    forall j | j in s'.locks
      ensures SomeoneHolds(s'.txns, j)
    {
      StillHolds(s.txns, s'.txns, t, j);
    }
  }

  lemma LocksKept(s: Sys, s': Sys, t: nat)
    requires LocksOk(s) && t in s'.txns
    requires s'.locks == s.locks && s'.txns == s.txns[t := s'.txns[t]]
    requires Held(s'.txns[t]) == if t in s.txns then Held(s.txns[t]) else map[]
    ensures LocksOk(s')
  {
    hide Held, SomeoneHolds;
    forall j | j in s'.locks
      ensures SomeoneHolds(s'.txns, j)
    {
      StillHolds(s.txns, s'.txns, t, j);
    }
  }

  // ------------------------------------------------------------------ lock ids in requests

  /** A coordinator shows only lock ids of locks it holds. */
  lemma CarriesHeldLock(m: Meta, t: Txn, choice: Inode)
    requires Knows(m, t) && ActionOf(t, choice).Propose? && MetaOf(ActionOf(t, choice).request).lockId.Some?
    ensures var mi := MetaOf(ActionOf(t, choice).request);
            mi.inode.Some? && mi.inode.value in Held(t) && Held(t)[mi.inode.value] == mi.lockId.value
  {
    hide Allows, SrcKnown, DstKnown, Reads, TargetRead, MayRemove, MayAdd, BothLinked, TargetDropped, Moved;
  }

  /** So it never fails the lock table's assertion. */
  lemma ShowsItsLock(s: Sys, t: nat, choice: Inode)
    requires Inv(s) && t in s.txns && ActionOf(s.txns[t], choice).Propose?
    ensures ShowsHeldLock(s.locks, ActionOf(s.txns[t], choice).request)
  {
    hide ActionOf, MetaOf, Held, FreshOk, SpoiledOk, EntriesOk, LedgerOk, Knows, OwedOk;
    assert TxnOk(s.meta, s.txns[t], s.spoiled);
    if MetaOf(ActionOf(s.txns[t], choice).request).lockId.Some? {
      CarriesHeldLock(s.meta, s.txns[t], choice);
    }
  }

  /** The inode a coordinator's request works on is not locked by any other transaction. */
  lemma NotHeldByOthers(s: Sys, t: nat, choice: Inode, u: nat)
    requires Inv(s) && t in s.txns && u in s.txns && u != t
    requires ActionOf(s.txns[t], choice).Propose? && !MustWait(s.locks, ActionOf(s.txns[t], choice).request)
    ensures var mi := MetaOf(ActionOf(s.txns[t], choice).request);
            mi.inode.Some? && mi.access != NoAccess ==> mi.inode.value !in Held(s.txns[u])
  {
    hide ActionOf, MetaOf, Held, FreshOk, SpoiledOk, EntriesOk, LedgerOk, Knows, OwedOk;
    assert TxnOk(s.meta, s.txns[t], s.spoiled);
    if MetaOf(ActionOf(s.txns[t], choice).request).lockId.Some? {
      CarriesHeldLock(s.meta, s.txns[t], choice);
    }
  }
}
