/** Every step keeps the invariant, so it holds in every reachable state. */
module Safety {
  import opened Types
  import opened Access
  import opened Metadata
  import opened Coordinator
  import opened Cluster
  import opened Invariant
  import opened LinkLedger
  import opened TransactionSteps
  import opened RenameSteps
  import opened LockSteps

  // ------------------------------------------------------------------ effects on all other rows

  /** Only CreateInode makes an inode, and no request changes the number of groups. */
  lemma CommitInodeSet(m: Meta, r: Request, now: Timestamp)
    ensures var m' := CommitMeta(m, r, now).meta;
            && m'.numGroups == m.numGroups
            && (!r.CreateInode? ==> m'.attrs.Keys <= m.attrs.Keys)
  {
    hide Allows, Sticky, XattrDenied, WithoutSetId, NewTime, MetadataOf, DirectoryEntries, CommitOwner, CommitAttr;
    if IsOwnerRequest(r) || IsAttrRequest(r) {
      AttrRequestEffect(m, r, now);
    }
  }

  lemma LinkKeepsKinds(m: Meta, r: Request, now: Timestamp, i: Inode)
    requires IsLinkRequest(r) && i in m.attrs && i in CommitLink(m, r, now).meta.attrs
    ensures CommitLink(m, r, now).meta.attrs[i].kind == m.attrs[i].kind
  {
    hide Allows, Sticky;
  }

  lemma CommitKeepsKinds(m: Meta, r: Request, now: Timestamp, i: Inode)
    requires i in m.attrs && i in CommitMeta(m, r, now).meta.attrs && !(r.CreateInode? && i == m.nextInode)
    ensures CommitMeta(m, r, now).meta.attrs[i].kind == m.attrs[i].kind
  {
    hide XattrDenied, WithoutSetId, DirectoryEntries, CommitOwner, CommitAttr, CommitLink;
    if IsOwnerRequest(r) || IsAttrRequest(r) {
      AttrRequestEffect(m, r, now);
    } else if IsLinkRequest(r) {
      LinkKeepsKinds(m, r, now, i);
    }
  }

  /** The other transactions' locks keep this request away from the rows they rely on. */
  lemma OthersKnow(s: Sys, t: nat, choice: Inode, now: Timestamp, u: nat)
    requires Inv(s) && t in s.txns && u in s.txns && u != t
    requires var a := ActionOf(s.txns[t], choice);
             a.Propose? && !a.request.Lock? && !a.request.Unlock? && !MustWait(s.locks, a.request)
    ensures Knows(Execute(s, ActionOf(s.txns[t], choice).request, now).meta, s.txns[u])
  {
    hide LocksOk, LedgerOk, EntriesOk, SpoiledOk, OwedOk, Knows, Held, CommitMeta, SameRow, SameDirectory, SameXattrs,
         MustWait, ActionOf;
    var r := ActionOf(s.txns[t], choice).request;
    assert TxnOk(s.meta, s.txns[u], s.spoiled);
    var m0, m' := TablesFor(s, r), Execute(s, r, now).meta;
    NotHeldByOthers(s, t, choice, u);
    ProposedAccess(s.txns[t], choice);
    forall i | i in Held(s.txns[u]) && i in s.meta.attrs
      ensures SameRows(s.meta, m', i)
    {
      if r.CreateInode? {
        GroupKnown(s, t, choice);
      }
      CommitChangesOnlyItsInode(m0, r, now, i);
    }
    KnowsStable(s.meta, m', s.txns[u]);
  }

  /** What a coordinator proposes takes access to its inode, or creates one. */
  lemma ProposedAccess(t: Txn, choice: Inode)
    requires ActionOf(t, choice).Propose? && !ActionOf(t, choice).request.Unlock?
    ensures var r := ActionOf(t, choice).request;
            if r.CreateInode? then t.CreateStart? && r.raftGroup == t.group
            else MetaOf(r).inode.Some? && MetaOf(r).access != NoAccess
  {}

  lemma GroupKnown(s: Sys, t: nat, choice: Inode)
    requires FreshOk(s) && t in s.txns && ActionOf(s.txns[t], choice).Propose?
    requires ActionOf(s.txns[t], choice).request.CreateInode?
    ensures var r := ActionOf(s.txns[t], choice).request;
            r.raftGroup in s.next && s.next[r.raftGroup] !in s.meta.attrs
  {
    hide ActionOf;
    ProposedAccess(s.txns[t], choice);
    var g := s.txns[t].group;
    assert s.next[g] % s.meta.numGroups == g;
  }

  /** Inode numbers stay fresh. */
  lemma StaysFresh(s: Sys, s': Sys, r: Request, now: Timestamp)
    requires FreshOk(s) && s'.meta == Execute(s, r, now).meta && s'.next == CountersAfter(s, r, s'.meta)
    requires r.CreateInode? ==> r.raftGroup in s.next
    requires forall t :: t in s'.txns && s'.txns[t].CreateStart? ==> s'.txns[t].group in s.next
    ensures FreshOk(s')
  {
    hide CommitMeta;
    CommitInodeSet(TablesFor(s, r), r, now);
    if r.CreateInode? {
      CreateCounts(TablesFor(s, r), r, now);
      SameResidue(s.next[r.raftGroup], s.meta.numGroups);
    }
  }

  /** What is spoiled stays given out, and no directory. */
  lemma SpoiledStays(s: Sys, s': Sys, r: Request, now: Timestamp)
    requires FreshOk(s) && SpoiledOk(s) && s'.spoiled == s.spoiled
    requires s'.meta == Execute(s, r, now).meta && s'.next == CountersAfter(s, r, s'.meta)
    requires r.CreateInode? ==> r.raftGroup in s.next
    ensures SpoiledOk(s')
  {
    hide CommitMeta;
    CommitInodeSet(TablesFor(s, r), r, now);
    if r.CreateInode? {
      CreateCounts(TablesFor(s, r), r, now);
    }
    forall i | i in s'.spoiled && i in s'.meta.attrs
      ensures s'.meta.attrs[i].kind != Directory
    {
      CommitKeepsKinds(TablesFor(s, r), r, now, i);
    }
  }

  lemma CreateCounts(m: Meta, r: Request, now: Timestamp)
    requires r.CreateInode?
    ensures var m' := CommitMeta(m, r, now).meta;
            m'.attrs.Keys == m.attrs.Keys + {m.nextInode} && m'.nextInode == m.nextInode + m.numGroups
  {}

  lemma SameResidue(i: nat, n: nat)
    requires n > 0
    ensures (i + n) % n == i % n
  {
    assert (i / n + 1) * n == i / n * n + n;
    Striping.DivModUnique(i + n, n, i / n + 1, i % n);
  }

  // ------------------------------------------------------------------ coordinators

  /** A coordinator gives back the last link of a directory that is no longer empty.  Only rmdir and
      the undoing of a create get there. */
  ghost predicate StoppedOnNonEmpty(s: Sys, t: nat, s': Sys) {
    && t in s.txns
    && (s.txns[t].CreateUndo? || (s.txns[t].RemovalDropping? && s.txns[t].job == RemoveDir))
    && s.txns[t].inode in s.meta.attrs && s.meta.attrs[s.txns[t].inode].kind == Directory
    && DirectoryEntries(s.meta, s.txns[t].inode) > 0
    && s' == Stopped(s, NonEmptyDirectoryDeleted)
  }

  /** An rmdir that has ended up with a file finds that it does not have two links, or gives back two
      links of a file that has fewer by now. */
  ghost predicate StoppedOnFile(s: Sys, t: nat, s': Sys) {
    || (ChecksFile(s, t) && s' == Stopped(s, CoordinatorAssertion))
    || (DropsFile(s, t) && s.meta.attrs[s.txns[t].inode].hardlinks < 2 && s' == Stopped(s, LinkCountUnderflow))
  }

  /** A coordinator gives back more links of a spoiled file than it has left. */
  ghost predicate StoppedOnSpoiled(s: Sys, t: nat, s': Sys) {
    && t in s.txns && OwesSpoiled(s, t) && Plus(s.txns[t]).value in s.meta.attrs
    && s' == Stopped(s, LinkCountUnderflow)
  }

  /** An rmdir that has ended up with a file takes two links of it, and has removed one entry. */
  predicate BreaksLinks(s: Sys, l: Label) {
    l.TxnStep? && DropsFile(s, l.t) && s.meta.attrs[s.txns[l.t].inode].hardlinks >= 2
  }

  /** Requests other than Lock and Unlock. */
  lemma ExecuteFine(s: Sys, t: nat, now: Timestamp, choice: Inode)
    requires Inv(s) && t in s.txns && KernelValidated(s.meta, s.txns[t]) && !DropsFile(s, t)
    requires var a := ActionOf(s.txns[t], choice); a.Propose? && !a.request.Lock? && !a.request.Unlock?
    ensures var step := Execute(s, ActionOf(s.txns[t], choice).request, now);
            || Fine(s, t, choice, step)
            || (&& StoppedOnNonEmpty(s, t, Stopped(s, NonEmptyDirectoryDeleted))
                && step.outcome == Panicked(NonEmptyDirectoryDeleted))
            || (&& StoppedOnSpoiled(s, t, Stopped(s, LinkCountUnderflow))
                && step.outcome == Panicked(LinkCountUnderflow))
  {
    hide CommitMeta, Fine, LedgerOk, LocksOk, EntriesOk, TxnsOk, SpoiledOk, DirectoryEntries, RenameKnows,
         KernelValidated;
    match s.txns[t]
    case CreateStart(_, _, _, _, _, _, _) => CreateInodeFine(s, t, now, choice);
    case CreateLinking(_, _, _, _, _, _) => LinkFine(s, t, now, choice);
    case HardlinkLinking(_, _, _, _, _, _) => LinkFine(s, t, now, choice);
    case CreateUndo(_, _, _) => DropFine(s, t, now, choice);
    case RemovalDropping(_, _) => DropFine(s, t, now, choice);
    case HardlinkStart(_, _, _, _) => HardlinkIncrementFine(s, t, now, choice);
    case HardlinkUndo(_, _, _) => HardlinkRollbackFine(s, t, now, choice);
    case UnlinkStart(_, _, _) => UnlinkFine(s, t, now, choice);
    case RemovalTrying(_, _, _, _, _, _, _) => UnlinkFine(s, t, now, choice);
    case Renaming(_, pc) => RenameExecuteFine(s, t, now, choice);
    case _ =>
  }

  lemma RenameExecuteFine(s: Sys, t: nat, now: Timestamp, choice: Inode)
    requires Inv(s) && t in s.txns && s.txns[t].Renaming?
    requires var a := ActionOf(s.txns[t], choice); a.Propose? && !a.request.Lock? && !a.request.Unlock?
    ensures var step := Execute(s, ActionOf(s.txns[t], choice).request, now);
            || Fine(s, t, choice, step)
            || (&& StoppedOnSpoiled(s, t, Stopped(s, LinkCountUnderflow))
                && step.outcome == Panicked(LinkCountUnderflow))
  {
    hide CommitMeta, Fine, Inv;
    var a := s.txns[t].args;
    match s.txns[t].pc
    case AddLink(l, sa, da) =>
      if l.dst.Some? {
        ReplaceFine(s, t, a, l, sa, da, now, choice);
      } else {
        AddFine(s, t, a, l, sa, da, now, choice);
      }
    case DropTarget(_, _, _) => DropTargetFine(s, t, now, choice);
    case RemoveOld(l, sa, da) => RemoveOldFine(s, t, a, l, sa, da, now, choice);
    case Reparent(l, sa, da) => ReparentFine(s, t, a, l, sa, da, now, choice);
    case Touch(l, sa, da) => TouchFine(s, t, a, l, sa, da, now, choice);
    case _ =>
  }

  lemma ExecutedKeepsInv(s: Sys, t: nat, now: Timestamp, choice: Inode)
    requires Inv(s) && t in s.txns
    requires var a := ActionOf(s.txns[t], choice);
             && a.Propose? && !a.request.Lock? && !a.request.Unlock? && !MustWait(s.locks, a.request)
             && Fine(s, t, choice, Execute(s, a.request, now))
    ensures var r := ActionOf(s.txns[t], choice).request;
            var step := Execute(s, r, now);
            Inv(s.(meta := step.meta, next := CountersAfter(s, r, step.meta),
                   txns := s.txns[t := Resume(s.txns[t], choice, step.outcome).txn]))
  {
    hide CommitMeta, LedgerOk, LocksOk, EntriesOk, SpoiledOk, ActionOf, Resume, Held, MustWait, Knows, OwedOk;
    var r := ActionOf(s.txns[t], choice).request;
    var step := Execute(s, r, now);
    var txn' := Resume(s.txns[t], choice, step.outcome).txn;
    var s' := s.(meta := step.meta, next := CountersAfter(s, r, step.meta), txns := s.txns[t := txn']);
    LocksKept(s, s', t);
    NeverStartsAgain(s.txns[t], choice, step.outcome);
    if r.CreateInode? {
      GroupKnown(s, t, choice);
    }
    StaysFresh(s, s', r, now);
    SpoiledStays(s, s', r, now);
    forall u | u in s.txns && u != t
      ensures TxnOk(step.meta, s.txns[u], s.spoiled)
    {
      OthersKnow(s, t, choice, now, u);
    }
  }

  lemma NeverStartsAgain(t: Txn, choice: Inode, o: Outcome)
    ensures Resume(t, choice, o).Go? ==> !Resume(t, choice, o).txn.CreateStart?
  {}

  /** Steps that leave the tables alone. */
  lemma QuietKeepsInv(s: Sys, t: nat, s': Sys)
    requires Inv(s) && t in s.txns && LocksOk(s') && s'.spoiled == s.spoiled
    requires t in s'.txns && s'.txns == s.txns[t := s'.txns[t]] && s'.meta == s.meta && s'.next == s.next
    requires GoesOn(s, t, Go(s'.txns[t])) && !s'.txns[t].CreateStart?
    ensures Inv(s')
  {
    hide LocksOk, LedgerOk, EntriesOk, TxnOk, Plus, Minus;
    if Plus(s'.txns[t]) == Plus(s.txns[t]) {
      SameCountsReflexive(s.meta);
      QuietGood(s, t, s.meta, s'.txns[t]);
    } else {
      var j := Plus(s.txns[t]).value;
      assert s.spoiled + {j} == s.spoiled;
      NotRoot(s, j);
      SpoiledGood(s, t, s.meta, s'.txns[t], j, s.spoiled);
    }
    assert forall u :: u in s'.txns && u != t ==> TxnOk(s.meta, s.txns[u], s.spoiled);
  }

  lemma ReadKeepsInv(s: Sys, t: nat, choice: Inode)
    requires Inv(s) && t in s.txns && !ActionOf(s.txns[t], choice).Propose? && !ActionOf(s.txns[t], choice).Stop?
    requires !ChecksFile(s, t)
    ensures var a := ActionOf(s.txns[t], choice);
            var next := Resume(s.txns[t], choice,
                               if a.ReadAttr? then GetAttributes(s.meta, a.inode)
                               else LookupOutcome(s.meta, a.parent, a.name, a.context));
            next.Go? && Held(next.txn) == Held(s.txns[t]) && Inv(Continue(s, t, next))
  {
    hide LedgerOk, LocksOk, EntriesOk, FreshOk, SpoiledOk, RenameKnows, HeldInRename, ResumeRename, ResumeRemoval,
         DirectoryEntries, LookupEntry, MetadataOf, OwedKindOk;
    var txn := s.txns[t];
    assert TxnOk(s.meta, txn, s.spoiled);
    if txn.Renaming? {
      if txn.pc.FindSource? || txn.pc.FindTarget? {
        RenameLookupFine(s.meta, txn.args, txn.pc, choice);
      } else {
        RenameReadFine(s.meta, txn.args, txn.pc, choice);
      }
    } else if txn.RemovalReading? || txn.RmdirChecking? {
      RemovalReadFine(s, t, choice);
    }
    var a := ActionOf(txn, choice);
    var o := if a.ReadAttr? then GetAttributes(s.meta, a.inode) else LookupOutcome(s.meta, a.parent, a.name, a.context);
    QuietKept(s, t, choice, o);
  }

  lemma QuietKept(s: Sys, t: nat, choice: Inode, o: Outcome)
    requires Inv(s) && t in s.txns && GoesOn(s, t, Resume(s.txns[t], choice, o))
    requires Held(Resume(s.txns[t], choice, o).txn) == Held(s.txns[t])
    ensures Inv(Continue(s, t, Resume(s.txns[t], choice, o)))
  {
    hide LedgerOk, LocksOk, EntriesOk, FreshOk, SpoiledOk, Resume, Held, GoesOn, TxnsOk;
    var next := Resume(s.txns[t], choice, o);
    assert next.Go? by { Proceeds(s, t, next); }
    var s' := Continue(s, t, next);
    NeverStartsAgain(s.txns[t], choice, o);
    LocksKept(s, s', t);
    QuietKeepsInv(s, t, s');
  }

  lemma Proceeds(s: Sys, t: nat, next: Next)
    requires t in s.txns && GoesOn(s, t, next)
    ensures next.Go?
  {}

  lemma LockKeepsInv(s: Sys, t: nat, choice: Inode, id: LockId, i: Inode)
    requires Inv(s) && t in s.txns && ActionOf(s.txns[t], choice) == Propose(Lock(i)) && i !in s.locks
    ensures var next := Resume(s.txns[t], choice, Ok(LockGranted(id)));
            && next.Go? && Held(next.txn) == Held(s.txns[t])[i := id] && i !in Held(s.txns[t])
            && Inv(Continue(s.(locks := s.locks[i := id]), t, next))
  {
    hide LedgerOk, LocksOk, EntriesOk, FreshOk, SpoiledOk, Resume, Held, GoesOn, TxnsOk, ActionOf;
    LockFine(s, t, choice, id, i);
    HeldIsLocked(s, t, i);
    var next := Resume(s.txns[t], choice, Ok(LockGranted(id)));
    Proceeds(s, t, next);
    NeverStartsAgain(s.txns[t], choice, Ok(LockGranted(id)));
    var s' := Continue(s.(locks := s.locks[i := id]), t, next);
    LocksGranted(s, s', t, i, id);
    QuietKeepsInv(s, t, s');
  }

  lemma UnlockKeepsInv(s: Sys, t: nat, choice: Inode, id: LockId, i: Inode)
    requires Inv(s) && t in s.txns && ActionOf(s.txns[t], choice) == Propose(Unlock(i, id))
    ensures var next := Resume(s.txns[t], choice, Ok(Empty));
            && next.Go? && Held(next.txn) == Held(s.txns[t]) - {i} && i in Held(s.txns[t])
            && Inv(Continue(s.(locks := s.locks - {i}), t, next))
  {
    hide LedgerOk, LocksOk, EntriesOk, FreshOk, SpoiledOk, Resume, Held, GoesOn, ActionOf, Knows;
    UnlockFine(s, t, choice, i, id);
    var next := Resume(s.txns[t], choice, Ok(Empty));
    Proceeds(s, t, next);
    NeverStartsAgain(s.txns[t], choice, Ok(Empty));
    assert i in Held(s.txns[t]) by {
      assert TxnOk(s.meta, s.txns[t], s.spoiled);
      CarriesHeldLock(s.meta, s.txns[t], choice);
    }
    var s' := Continue(s.(locks := s.locks - {i}), t, next);
    LocksReleased(s, s', t, i);
    QuietKeepsInv(s, t, s');
  }

  lemma ExecuteKeepsInv(s: Sys, t: nat, now: Timestamp, newLock: LockId, choice: Inode)
    requires Inv(s) && s.crash.None? && t in s.txns && KernelValidated(s.meta, s.txns[t]) && !DropsFile(s, t)
    requires var a := ActionOf(s.txns[t], choice);
             a.Propose? && !a.request.Lock? && !a.request.Unlock? && !MustWait(s.locks, a.request)
    ensures var s' := ProposeStep(s, t, ActionOf(s.txns[t], choice).request, now, newLock, choice);
            Inv(s') && (s'.crash == s.crash || StoppedOnNonEmpty(s, t, s') || StoppedOnSpoiled(s, t, s'))
  {
    hide Inv, Resume, ActionOf, Execute, CountersAfter, Fine, ShowsHeldLock, MustWait, KernelValidated,
         DirectoryEntries, OwesSpoiled;
    var r := ActionOf(s.txns[t], choice).request;
    ShowsItsLock(s, t, choice);
    ExecuteFine(s, t, now, choice);
    if Fine(s, t, choice, Execute(s, r, now)) {
      FineGoes(s, t, choice, Execute(s, r, now));
      ExecutedKeepsInv(s, t, now, choice);
    } else {
      InvOfStopped(s, NonEmptyDirectoryDeleted);
      InvOfStopped(s, LinkCountUnderflow);
    }
  }

  lemma InvOfStopped(s: Sys, cause: Panic)
    requires Inv(s)
    ensures Inv(Stopped(s, cause))
  {}

  /** Every step of a coordinator keeps the invariant.  It stops the run only on a directory that is not
      empty, on an rmdir that has ended up with a file, or on a spoiled file.  No other assertion,
      unwrap or subtraction on the way can fail. */
  lemma TxnStepKeepsInv(s: Sys, t: nat, now: Timestamp, newLock: LockId, choice: Inode)
    requires Inv(s) && Enabled(s, TxnStep(t, now, newLock, choice))
    ensures var s' := Apply(s, TxnStep(t, now, newLock, choice));
            && Inv(s')
            && (s'.crash.None? || StoppedOnNonEmpty(s, t, s') || StoppedOnFile(s, t, s') || StoppedOnSpoiled(s, t, s'))
  {
    hide Inv, Resume, ActionOf, Execute, CountersAfter, Fine, StoppedOnNonEmpty, StoppedOnFile, StoppedOnSpoiled,
         ChecksFile, DropsFile, ShowsHeldLock, MustWait, KernelValidated, DirectoryEntries, GetAttributes,
         LookupOutcome, SpoiledAfter;
    var a := ActionOf(s.txns[t], choice);
    if BreaksLinks(s, TxnStep(t, now, newLock, choice)) {
      BreakKeepsInv(s, t, now, newLock, choice);
    } else if ChecksFile(s, t) || DropsFile(s, t) {
      FileStops(s, t, now, newLock, choice);
    } else if !a.Propose? {
      ReadKeepsInv(s, t, choice);
    } else if a.request.Lock? {
      ShowsItsLock(s, t, choice);
      NotWaiting(s.locks, a.request);
      LockKeepsInv(s, t, choice, newLock, a.request.inode);
    } else if a.request.Unlock? {
      ShowsItsLock(s, t, choice);
      UnlockKeepsInv(s, t, choice, a.request.heldId, a.request.inode);
    } else {
      ExecuteKeepsInv(s, t, now, newLock, choice);
    }
  }

  lemma FileStops(s: Sys, t: nat, now: Timestamp, newLock: LockId, choice: Inode)
    requires Inv(s) && Enabled(s, TxnStep(t, now, newLock, choice)) && !BreaksLinks(s, TxnStep(t, now, newLock, choice))
    requires ChecksFile(s, t) || DropsFile(s, t)
    ensures var s' := Apply(s, TxnStep(t, now, newLock, choice)); Inv(s') && StoppedOnFile(s, t, s')
  {
    hide Inv, CommitOwner, CommitAttr, CommitXattr, CommitLink, ResumeRename, ResumeRemoval, RenameAction,
         DirectoryEntries;
    InvOfStopped(s, CoordinatorAssertion);
    InvOfStopped(s, LinkCountUnderflow);
  }

  /** What a step does that takes two links of a file for one entry. */
  lemma BreakIs(s: Sys, t: nat, now: Timestamp, newLock: LockId, choice: Inode)
    requires Enabled(s, TxnStep(t, now, newLock, choice)) && BreaksLinks(s, TxnStep(t, now, newLock, choice))
    ensures var s' := Apply(s, TxnStep(t, now, newLock, choice)); var f := s.txns[t].inode;
            && ActionOf(s.txns[t], choice) == Propose(DecrementInode(f, 2, None))
            && s'.meta == Execute(s, DecrementInode(f, 2, None), now).meta == DecrementStep(s.meta, f, 2, now).meta
            && s' == s.(meta := s'.meta, txns := s.txns[t := Finished(Success)], spoiled := s.spoiled + {f})
  {
    hide CommitOwner, CommitAttr, CommitXattr, CommitLink, ResumeRename, ResumeRemoval, RenameAction,
         DirectoryEntries;
  }

  /** Whatever it does to that file, everything else stays right. */
  lemma BreakKeepsInv(s: Sys, t: nat, now: Timestamp, newLock: LockId, choice: Inode)
    requires Inv(s) && Enabled(s, TxnStep(t, now, newLock, choice)) && BreaksLinks(s, TxnStep(t, now, newLock, choice))
    ensures var s' := Apply(s, TxnStep(t, now, newLock, choice)); Inv(s') && s'.crash.None?
  {
    hide CommitMeta, DecrementStep, LedgerOk, LocksOk, EntriesOk, Knows, OwedOk, ActionOf, Apply, SameCountsBut,
         DirectoryEntries;
    var s' := Apply(s, TxnStep(t, now, newLock, choice));
    var f, txn', r := s.txns[t].inode, Finished(Success), DecrementInode(s.txns[t].inode, 2, None);
    BreakIs(s, t, now, newLock, choice);
    DecrementElsewhere(s.meta, f, 2, now);
    assert f != ROOT_INODE;
    assert TxnOk(s'.meta, txn', s'.spoiled) by { NothingOwed(s'.meta, txn', s'.spoiled); }
    assert forall i :: i != f ==> Balance(txn', i) == Balance(s.txns[t], i);
    SpoiledGood(s, t, s'.meta, txn', f, s'.spoiled);
    LocksKept(s, s', t);
    StaysFresh(s, s', r, now);
    assert SpoiledOk(s') by { SpoiledGrows(s, s', f, now); }
    forall u | u in s.txns && u != t
      ensures TxnOk(s'.meta, s.txns[u], s'.spoiled)
    {
      OthersKnow(s, t, choice, now, u);
    }
  }

  lemma NothingOwed(m: Meta, txn: Txn, x: set<Inode>)
    requires txn.Finished?
    ensures TxnOk(m, txn, x)
  {}

  lemma SpoiledGrows(s: Sys, s': Sys, f: Inode, now: Timestamp)
    requires FreshOk(s) && SpoiledOk(s) && f in s.meta.attrs && f != ROOT_INODE && s.meta.attrs[f].kind != Directory
    requires s'.spoiled == s.spoiled + {f} && s'.next == s.next && s'.meta == DecrementStep(s.meta, f, 2, now).meta
    ensures SpoiledOk(s')
  {
    hide DirectoryEntries;
  }

  lemma NotWaiting(locks: map<Inode, LockId>, r: Request)
    requires !MustWait(locks, r) && MetaOf(r).inode.Some? && MetaOf(r).lockId.None? && MetaOf(r).access != NoAccess
    ensures MetaOf(r).inode.value !in locks
  {}

  lemma FineGoes(s: Sys, t: nat, choice: Inode, step: Step)
    requires t in s.txns && Fine(s, t, choice, step)
    ensures Resume(s.txns[t], choice, step.outcome).Go? && !step.outcome.Panicked?
  {}

  // ------------------------------------------------------------------ clients

  /** A client's request keeps every entry, every link count and every kind. */
  lemma ClientRequestEffect(m: Meta, r: Request, now: Timestamp)
    requires IsClientRequest(r)
    ensures var m' := CommitMeta(m, r, now).meta;
            m'.dir == m.dir && m'.parents == m.parents && SameCounts(m, m') && m'.numGroups == m.numGroups
    ensures r.Fsync? ==> CommitMeta(m, r, now).meta == m
    ensures CommitMeta(m, r, now).outcome.Panicked? ==>
              && (r.Fsync? || r.Utimens? || r.Chmod? || r.Chown?) && r.inode == ROOT_INODE
              && CommitMeta(m, r, now).outcome == Panicked(RootInodeForbidden)
  {
    hide Allows, XattrDenied, WithoutSetId, NewTime, IsNow, CommitLink, CommitInode, Striping.Max, SameCounts;
    if IsOwnerRequest(r) {
      hide CommitAttr, CommitXattr;
      OneRowKept(m, CommitMeta(m, r, now).meta, r.inode);
    } else if IsXattrRequest(r) {
      hide CommitAttr, CommitOwner;
      OneRowKept(m, CommitMeta(m, r, now).meta, r.inode);
    } else {
      hide CommitXattr, CommitOwner;
      OneRowKept(m, CommitMeta(m, r, now).meta, r.inode);
    }
  }

  /** Rewriting one row without touching its kind and link count. */
  lemma OneRowKept(m: Meta, m': Meta, i: Inode)
    requires m'.attrs == m.attrs || (i in m.attrs && i in m'.attrs && m'.attrs == m.attrs[i := m'.attrs[i]])
    requires i in m.attrs && i in m'.attrs ==>
               m'.attrs[i].kind == m.attrs[i].kind && m'.attrs[i].hardlinks == m.attrs[i].hardlinks
    ensures SameCounts(m, m')
  {}

  /** The root directory's owner, mode and times cannot be set, nor can it be synced: replicas assert it. */
  ghost predicate StoppedOnRoot(s: Sys, r: Request, s': Sys) {
    && (r.Fsync? || r.Utimens? || r.Chmod? || r.Chown?) && r.inode == ROOT_INODE
    && s'.crash.Some? && s' == Stopped(s, s'.crash.value.cause)
  }

  lemma ClientKeepsKnowledge(s: Sys, r: Request, now: Timestamp, u: nat)
    requires Inv(s) && IsClientRequest(r) && !MustWait(s.locks, r) && u in s.txns
    ensures TxnOk(CommitMeta(s.meta, r, now).meta, Now(s, u), s.spoiled)
  {
    hide LedgerOk, EntriesOk, FreshOk, SpoiledOk, LocksOk, Knows, Held, CommitMeta, SameRows, SameHeldRows, Plus,
         OwedKindOk, SameCounts, MustWait;
    var m' := CommitMeta(s.meta, r, now).meta;
    ClientRequestEffect(s.meta, r, now);
    assert TxnOk(s.meta, s.txns[u], s.spoiled);
    assert OwedOk(m', s.txns[u], s.spoiled) by { SameCountsKeepDebt(s.meta, m', s.txns[u], s.spoiled); }
    if !r.Fsync? {
      ClientKeepsHeldRows(s, r, now, u);
      KnowsStable(s.meta, m', s.txns[u]);
    }
  }

  lemma SameCountsKeepDebt(m: Meta, m': Meta, t: Txn, x: set<Inode>)
    requires OwedOk(m, t, x) && SameCounts(m, m')
    ensures OwedOk(m', t, x)
  {
    hide Plus, OwedKindOk;
  }

  lemma ClientKeepsHeldRows(s: Sys, r: Request, now: Timestamp, u: nat)
    requires LocksOk(s) && IsClientRequest(r) && !r.Fsync? && !MustWait(s.locks, r) && u in s.txns
    ensures SameHeldRows(s.meta, CommitMeta(s.meta, r, now).meta, Now(s, u))
  {
    hide LocksOk, CommitMeta, SameRows, Held;
    forall i | i in Held(s.txns[u]) && i in s.meta.attrs
      ensures SameRows(s.meta, CommitMeta(s.meta, r, now).meta, i)
    {
      HeldIsLocked(s, u, i);
      CommitChangesOnlyItsInode(s.meta, r, now, i);
    }
  }

  lemma SameCountsKeepLedger(m: Meta, m': Meta, txns: map<nat, Txn>, x: set<Inode>)
    requires LedgerOk(m, txns, x) && SameCounts(m, m') && m'.dir == m.dir
    ensures LedgerOk(m', txns, x)
  {
    hide Refs;
  }

  lemma EnvKeepsInv(s: Sys, r: Request, now: Timestamp)
    requires Inv(s) && Enabled(s, Env(r, now))
    ensures var s' := Apply(s, Env(r, now));
            Inv(s') && (s'.crash.None? || StoppedOnRoot(s, r, s'))
  {
    hide CommitMeta, LedgerOk, TxnOk, LocksOk, FreshOk, SpoiledOk, EntriesOk, RootOk, SameCounts, IsClientRequest,
         MustWait;
    var m' := CommitMeta(s.meta, r, now).meta;
    ClientRequestEffect(s.meta, r, now);
    forall u | u in s.txns
      ensures TxnOk(m', s.txns[u], s.spoiled)
    {
      ClientKeepsKnowledge(s, r, now, u);
    }
    SameCountsKeepLedger(s.meta, m', s.txns, s.spoiled);
    SameCountsKeepTables(s, m');
    InvOfStopped(s, RootInodeForbidden);
  }

  lemma SameCountsKeepTables(s: Sys, m': Meta)
    requires RootOk(s.meta) && EntriesOk(s.meta, s.spoiled) && FreshOk(s) && SpoiledOk(s) && LocksOk(s)
    requires SameCounts(s.meta, m') && m'.dir == s.meta.dir && m'.numGroups == s.meta.numGroups
    ensures RootOk(m') && EntriesOk(m', s.spoiled)
    ensures FreshOk(s.(meta := m')) && SpoiledOk(s.(meta := m')) && LocksOk(s.(meta := m'))
  {
    hide Held;
    forall k | k in m'.dir
      ensures m'.dir[k].inode in s.spoiled || EntryOk(m', m'.dir[k])
    {
      assert s.meta.dir[k].inode in s.spoiled || EntryOk(s.meta, s.meta.dir[k]);
    }
  }

  // ------------------------------------------------------------------ new transactions

  lemma BeginKeepsInv(s: Sys, t: nat, txn: Txn)
    requires Inv(s) && Enabled(s, Begin(t, txn))
    ensures Inv(Apply(s, Begin(t, txn)))
  {
    hide LocksOk, LedgerOk, EntriesOk;
    var s' := Apply(s, Begin(t, txn));
    LocksKept(s, s', t);
    StartOwesNothing(s.meta, txn, s.spoiled);
    BeginKeepsLedger(s.meta, s.txns, t, txn, s.spoiled);
  }

  lemma StartOwesNothing(m: Meta, txn: Txn, x: set<Inode>)
    requires IsStart(txn)
    ensures Plus(txn).None? && Minus(txn).None? && Held(txn) == map[] && TxnOk(m, txn, x)
  {}

  lemma BeginKeepsLedger(m: Meta, txns: map<nat, Txn>, t: nat, txn: Txn, x: set<Inode>)
    requires LedgerOk(m, txns, x) && t !in txns && Plus(txn).None? && Minus(txn).None?
    ensures LedgerOk(m, txns[t := txn], x)
  {
    hide EntriesTo, Pluses, Minuses, Plus, Minus;
    forall i | i in m.attrs && i != ROOT_INODE && i !in x
      ensures CountOk(m.attrs[i], Refs(m.dir, txns[t := txn], i))
    {
      PlusesPut(txns, t, txn, i);
      MinusesPut(txns, t, txn, i);
    }
  }

  // ------------------------------------------------------------------ all runs

  /** A step that stops the run, and the reasons it can have. */
  ghost predicate KnownStop(s: Sys, l: Label, s': Sys) {
    || (l.TxnStep? && (StoppedOnNonEmpty(s, l.t, s') || StoppedOnFile(s, l.t, s') || StoppedOnSpoiled(s, l.t, s')))
    || (l.Env? && StoppedOnRoot(s, l.request, s'))
  }

  lemma StepKeepsInv(s: Sys, l: Label)
    requires Inv(s) && Enabled(s, l)
    ensures Inv(Apply(s, l)) && (Apply(s, l).crash.None? || KnownStop(s, l, Apply(s, l)))
  {
    hide Inv, Enabled, StoppedOnNonEmpty, StoppedOnRoot, StoppedOnFile, StoppedOnSpoiled;
    match l
    case TxnStep(t, now, newLock, choice) =>
      hide Apply;
      TxnStepKeepsInv(s, t, now, newLock, choice);
    case Env(r, now) =>
      hide Apply;
      EnvKeepsInv(s, r, now);
    case Begin(t, txn) =>
      assert Enabled(s, l) && s.crash.None? by { IsRunning(s, l); }
      BeginKeepsInv(s, t, txn);
  }

  lemma IsRunning(s: Sys, l: Label)
    requires Enabled(s, l)
    ensures s.crash.None?
  {}

  lemma {:induction false} RunKeepsInv(s: Sys, labels: seq<Label>)
    requires Inv(s) && ValidRun(s, labels)
    ensures Inv(Run(s, labels))
    decreases |labels|
  {
    hide Inv, Enabled, Apply;
    if labels != [] {
      StepKeepsInv(s, labels[0]);
      RunKeepsInv(Apply(s, labels[0]), labels[1..]);
    }
  }

  /** A new filesystem: nobody is at work, and each group starts counting above the root. */
  ghost predicate Initial(s: Sys) {
    && s.meta.numGroups > 0
    && (exists start, now :: s.meta == InitialMeta(start, s.meta.numGroups, now))
    && (forall g: nat :: g in s.next <==> g < s.meta.numGroups)
    && (forall g :: g in s.next ==> s.next[g] > ROOT_INODE && s.next[g] % s.meta.numGroups == g)
    && s.locks == map[] && s.txns == map[] && s.crash.None? && s.spoiled == {}
  }

  /** An inode number above the root's that belongs to group g of n. */
  function SomeStart(g: nat, n: nat): Inode { n + (n + g) }

  lemma SomeStartOk(g: nat, n: nat)
    requires g < n
    ensures SomeStart(g, n) > ROOT_INODE && SomeStart(g, n) % n == g
  {
    SameResidue(g, n);
    SameResidue(n + g, n);
  }

  /** There is a new filesystem for every number of groups. */
  lemma InitialExists(n: nat, now: Timestamp) returns (s: Sys)
    requires n > 0
    ensures Initial(s) && s.meta.numGroups == n
  {
    hide SomeStart;
    s := Sys(InitialMeta(n, n, now), map g: nat | g < n :: SomeStart(g, n), map[], map[], None, {});
    forall g: nat | g < n
      ensures SomeStart(g, n) > ROOT_INODE && SomeStart(g, n) % n == g
    {
      SomeStartOk(g, n);
    }
  }

  lemma InitialInv(s: Sys)
    requires Initial(s)
    ensures Inv(s)
  {}

  /** In every state of every run, the link count of each inode that is not spoiled is the number of its
      entries plus the links in flight, no entry of such an inode dangles or lies about the kind, and
      locks are exclusive. */
  lemma ReachableInv(s: Sys, labels: seq<Label>)
    requires Initial(s) && ValidRun(s, labels)
    ensures Inv(Run(s, labels))
  {
    InitialInv(s);
    RunKeepsInv(s, labels);
  }

  // ------------------------------------------------------------------ the form of a step

  /** The reply that a transaction gets. */
  function ReplyTo(s: Sys, a: Action, now: Timestamp, newLock: LockId): Outcome {
    match a
    case Propose(r) =>
      if r.Lock? then Ok(LockGranted(newLock)) else if r.Unlock? then Ok(Empty) else Execute(s, r, now).outcome
    case ReadAttr(i) => GetAttributes(s.meta, i)
    case ReadEntry(p, n, c) => LookupOutcome(s.meta, p, n, c)
    case Stop => Ok(Empty)
  }

  /** The step stops the run and changes nothing, or goes on with the reply. */
  lemma StepForm(s: Sys, l: Label)
    requires Inv(s) && Enabled(s, l) && l.TxnStep? && l.t in s.txns
    ensures !ActionOf(s.txns[l.t], l.choice).Stop?
    ensures var s', txn := Apply(s, l), s.txns[l.t];
            var a := ActionOf(txn, l.choice);
            var next := Resume(txn, l.choice, ReplyTo(s, a, l.now, l.newLock));
            if s'.crash.Some? then s'.meta == s.meta && s'.txns == s.txns
            else
              && next.Go? && s'.txns == s.txns[l.t := next.txn]
              && s'.meta == if a.Propose? && !a.request.Lock? && !a.request.Unlock?
                            then Execute(s, a.request, l.now).meta else s.meta
  {
    hide Inv, ActionOf, Resume, Execute, CountersAfter, GetAttributes, LookupOutcome, ShowsHeldLock, MustWait,
         KernelValidated, DirectoryEntries, ChecksFile, DropsFile, SpoiledAfter, OwesSpoiled;
    TxnStepKeepsInv(s, l.t, l.now, l.newLock, l.choice);
  }
}
