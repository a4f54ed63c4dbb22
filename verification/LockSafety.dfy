/** Locks: what holds in every run whatsoever. */
module LockSafety {
  import opened Types
  import opened Access
  import opened Metadata
  import opened Coordinator
  import opened Cluster
  import opened Invariant
  import opened LinkLedger
  import opened TransactionSteps
  import opened RenameSteps
  import opened LockSteps
  import opened Safety
  import opened RenameTheorems

  // ------------------------------------------------------------------ the locks of a transaction

  /** How a step changes the locks of the transaction that takes it. */
  ghost predicate LocksChange(s: Sys, t: nat, newLock: LockId, choice: Inode, s': Sys) {
    t in s.txns && t in s'.txns &&
    var a, held := ActionOf(s.txns[t], choice), Held(s.txns[t]);
    if a.Propose? && a.request.Lock? then
      a.request.inode !in held && Held(s'.txns[t]) == held[a.request.inode := newLock]
    else if a.Propose? && a.request.Unlock? then
      a.request.inode in held && Held(s'.txns[t]) == held - {a.request.inode}
    else Held(s'.txns[t]) == held
  }

  lemma LocksOfStep(s: Sys, t: nat, now: Timestamp, newLock: LockId, choice: Inode)
    requires Inv(s) && Enabled(s, TxnStep(t, now, newLock, choice))
    ensures LocksChange(s, t, newLock, choice, Apply(s, TxnStep(t, now, newLock, choice)))
  {
    hide Inv, Resume, ActionOf, Execute, CountersAfter, Held, GetAttributes, LookupOutcome, ShowsHeldLock, MustWait,
         KernelValidated, Good, ChecksFile, DropsFile, StoppedOnNonEmpty, StoppedOnSpoiled, SpoiledAfter;
    var a := ActionOf(s.txns[t], choice);
    if ChecksFile(s, t) || DropsFile(s, t) {
      FileHoldsNothing(s, t, now, newLock, choice);
    } else if !a.Propose? {
      ReadKeepsInv(s, t, choice);
    } else if a.request.Lock? {
      ShowsItsLock(s, t, choice);
      NotWaiting(s.locks, a.request);
      LockKeepsInv(s, t, choice, newLock, a.request.inode);
    } else if a.request.Unlock? {
      ShowsItsLock(s, t, choice);
      UnlockKeepsInv(s, t, choice, a.request.heldId, a.request.inode);
    } else {
      ShowsItsLock(s, t, choice);
      ExecuteFine(s, t, now, choice);
    }
  }

  /** An rmdir that has ended up with a file has released its lock. */
  lemma FileHoldsNothing(s: Sys, t: nat, now: Timestamp, newLock: LockId, choice: Inode)
    requires Enabled(s, TxnStep(t, now, newLock, choice)) && (ChecksFile(s, t) || DropsFile(s, t))
    ensures LocksChange(s, t, newLock, choice, Apply(s, TxnStep(t, now, newLock, choice)))
  {
    hide CommitMeta, CountersAfter, DirectoryEntries, ResumeRename, ResumeRemoval, RenameAction;
  }

  /** In every reachable state no inode is locked twice, the lock table holds exactly the locks that
      transactions hold, and no coordinator is about to show a lock id that is not held. */
  lemma LocksAreExclusive(s: Sys, labels: seq<Label>)
    requires Initial(s) && ValidRun(s, labels)
    ensures var s' := Run(s, labels);
            && LocksRecorded(s') && LocksExclusive(s') && NoStrayLock(s')
            && (forall t, choice :: t in s'.txns && ActionOf(s'.txns[t], choice).Propose? ==>
                  ShowsHeldLock(s'.locks, ActionOf(s'.txns[t], choice).request))
  {
    hide Initial, ValidRun, Run, TxnsOk, LedgerOk, EntriesOk, FreshOk, SpoiledOk, ActionOf, ShowsHeldLock,
         LocksRecorded, LocksExclusive, NoStrayLock;
    ReachableInv(s, labels);
    var s' := Run(s, labels);
    forall t, choice | t in s'.txns && ActionOf(s'.txns[t], choice).Propose?
      ensures ShowsHeldLock(s'.locks, ActionOf(s'.txns[t], choice).request)
    {
      ShowsItsLock(s', t, choice);
    }
  }

  /** When all transactions are done no lock is left, whatever they did. */
  lemma NoLockLeft(s: Sys, labels: seq<Label>)
    requires Initial(s) && ValidRun(s, labels)
    requires forall t :: t in Run(s, labels).txns ==> Now(Run(s, labels), t).Finished?
    ensures Run(s, labels).locks == map[]
  {
    hide Initial, ValidRun, Run, FreshOk, SpoiledOk, TxnsOk, LedgerOk, EntriesOk;
    ReachableInv(s, labels);
    assert forall i :: !SomeoneHolds(Run(s, labels).txns, i);
  }

  // ------------------------------------------------------------------ what locks protect

  /** The request that a step executes, if any. */
  function RequestOf(s: Sys, l: Label): Option<Request> {
    match l
    case TxnStep(t, _, _, choice) =>
      if t !in s.txns then None
      else var a := ActionOf(s.txns[t], choice); if a.Propose? then Some(a.request) else None
    case Env(r, _) => Some(r)
    case Begin(_, _) => None
  }

  /** While an inode is locked its rows change only through requests that carry its lock id. */
  lemma LockedRowsAreFrozen(s: Sys, l: Label, i: Inode)
    requires Inv(s) && Enabled(s, l) && i in s.locks && i in s.meta.attrs
    requires !SameRows(s.meta, Apply(s, l).meta, i)
    ensures RequestOf(s, l).Some?
    ensures var mi := MetaOf(RequestOf(s, l).value); mi.inode == Some(i) && mi.lockId == Some(s.locks[i])
  {
    hide LocksOk, TxnsOk, LedgerOk, EntriesOk, SpoiledOk, FreshOk, SameRow, SameDirectory, SameXattrs, Resume,
         ActionOf, CommitMeta;
    match l
    case TxnStep(t, now, _, choice) =>
      var a := ActionOf(s.txns[t], choice);
      assert a.Propose? && !a.request.Lock? && !a.request.Unlock? by { SameRowsReflexive(s.meta, i); }
      var r := a.request;
      ShowsItsLock(s, t, choice);
      ProposedAccess(s.txns[t], choice);
      if r.CreateInode? {
        GroupKnown(s, t, choice);
      }
      if Target(TablesFor(s, r), r) != Some(i) {
        SameRowsReflexive(s.meta, i);
        CommitChangesOnlyItsInode(TablesFor(s, r), r, now, i);
      }
    case Env(r, now) =>
      SameRowsReflexive(s.meta, i);
      if r.Fsync? {
        ClientRequestEffect(s.meta, r, now);
      } else if MetaOf(r).inode != Some(i) {
        CommitChangesOnlyItsInode(s.meta, r, now, i);
      }
    case Begin(_, _) =>
      SameRowsReflexive(s.meta, i);
  }

  lemma SameRowsReflexive(m: Meta, i: Inode)
    ensures SameRows(m, m, i)
  {}

  predicate Takes(s: Sys, l: Label, t: nat, i: Inode) {
    l.TxnStep? && l.t == t && t in s.txns && ActionOf(s.txns[t], l.choice) == Propose(Lock(i))
  }

  ghost predicate Releases(s: Sys, l: Label, t: nat, i: Inode) {
    l.TxnStep? && l.t == t && t in s.txns && exists id :: ActionOf(s.txns[t], l.choice) == Propose(Unlock(i, id))
  }

  /** How often transaction t locks inode i in a run, less how often it unlocks it. */
  ghost function Taken(s: Sys, labels: seq<Label>, t: nat, i: Inode): int
    decreases |labels|
  {
    if labels == [] then 0
    else
      One(Takes(s, labels[0], t, i)) - One(Releases(s, labels[0], t, i)) + Taken(Apply(s, labels[0]), labels[1..], t, i)
  }

  ghost predicate Holding(s: Sys, t: nat, i: Inode) { t in s.txns && i in Held(s.txns[t]) }

  lemma StepBalancesLocks(s: Sys, l: Label, t: nat, i: Inode)
    requires Inv(s) && Enabled(s, l)
    ensures One(Holding(Apply(s, l), t, i))
         == One(Holding(s, t, i)) + One(Takes(s, l, t, i)) - One(Releases(s, l, t, i))
  {
    hide Inv, Apply, ActionOf, Held, MustWait, KernelValidated;
    if l.TxnStep? && l.t == t {
      LocksOfStep(s, t, l.now, l.newLock, l.choice);
      var a := ActionOf(s.txns[t], l.choice);
      if a.Propose? && a.request.Unlock? {
        assert a == Propose(Unlock(a.request.inode, a.request.heldId));
      }
    } else if t in s.txns {
      OtherStep(s, l, t);
    } else {
      NewcomerHoldsNothing(s, l, t);
    }
  }

  lemma NewcomerHoldsNothing(s: Sys, l: Label, t: nat)
    requires Enabled(s, l) && t !in s.txns
    ensures t in Apply(s, l).txns ==> Held(Now(Apply(s, l), t)) == map[]
  {
    hide ActionOf, Execute, Resume;
  }

  /** Every lock a transaction takes it releases exactly once: it has taken an inode's lock as often
      as it has released it, and once more while it holds it. */
  lemma {:induction false} LocksBalance(s: Sys, labels: seq<Label>, t: nat, i: Inode)
    requires Inv(s) && ValidRun(s, labels)
    ensures One(Holding(Run(s, labels), t, i)) == One(Holding(s, t, i)) + Taken(s, labels, t, i)
    decreases |labels|
  {
    hide Inv, Enabled, Apply, Takes, Releases, Holding;
    if labels != [] {
      StepKeepsInv(s, labels[0]);
      StepBalancesLocks(s, labels[0], t, i);
      LocksBalance(Apply(s, labels[0]), labels[1..], t, i);
    }
  }

  /** On every exit path. */
  lemma FinishedHasReleasedAll(s: Sys, labels: seq<Label>, t: nat, i: Inode)
    requires Initial(s) && ValidRun(s, labels)
    requires t in Run(s, labels).txns && Now(Run(s, labels), t).Finished?
    ensures Taken(s, labels, t, i) == 0
  {
    hide Inv, ValidRun, Run, Taken;
    InitialInv(s);
    LocksBalance(s, labels, t, i);
  }
}
