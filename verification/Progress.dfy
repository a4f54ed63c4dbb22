/** Transactions get on: each step of a transaction brings it closer to its end. */
module Progress {
  import opened Types
  import opened Metadata
  import opened Coordinator
  import opened Cluster
  import opened Invariant
  import opened LockSteps
  import opened Safety
  import opened RenameTheorems
  import opened Guarantees
  import opened TransactionTheorems
  import opened Refusals

  // ------------------------------------------------------------------ a measure

  /** A removal that has locked another inode than its name points at must come back. */
  function Astray(m: Meta, p: Inode, n: Name, i: Inode): nat {
    if (p, n) in m.dir && m.dir[(p, n)].inode == i then 0 else 8
  }

  function RenameLeft(pc: RenamePc): nat {
    match pc
    case LockParent => 20
    case LockNewParent(_) => 19
    case FindSource(_, _) => 18
    case LockSource(_, _, _) => 17
    case FindTarget(_, _, _, _) => 16
    case LockTarget(_, _, _, _, _) => 15
    case ReadParent(_) => 14
    case ReadNewParent(_, _) => 13
    case ReadSource(_, _, _) => 12
    case ReadTarget(_, _, _, _) => 11
    case AddLink(_, _, _) => 10
    case DropTarget(_, _, _) => 9
    case RemoveOld(_, _, _) => 8
    case Reparent(_, _, _) => 7
    case Touch(_, _, _) => 6
    case ReleaseAll(guard, _) => |guard|
  }

  /** At most how many steps a transaction still has to take if nobody gets in its way. */
  function Left(m: Meta, t: Txn): nat {
    match t
    case CreateStart(_, _, _, _, _, _, _) => 3
    case CreateLinking(_, _, _, _, _, _) => 2
    case CreateUndo(_, _, _) => 1
    case HardlinkStart(_, _, _, _) => 3
    case HardlinkLinking(_, _, _, _, _, _) => 2
    case HardlinkUndo(_, _, _) => 1
    case UnlinkStart(_, _, _) => 9
    case RmdirStart(_, _, _) => 9
    case RemovalLocking(_, p, n, _, i) => 7 + Astray(m, p, n, i)
    case RemovalReading(_, p, n, _, i, _) => 6 + Astray(m, p, n, i)
    case RemovalTrying(_, p, n, _, i, _, _) => 5 + Astray(m, p, n, i)
    case RemovalUnlocking(_, p, n, _, _, _, Again(i)) => 8 + Astray(m, p, n, i)
    case RemovalUnlocking(_, _, _, _, _, _, Drop(_)) => 4
    case RemovalUnlocking(_, _, _, _, _, _, Give(_)) => 1
    case RmdirChecking(_) => 2
    case RemovalDropping(_, _) => 1
    case Renaming(_, pc) => RenameLeft(pc)
    case Finished(_) => 0
  }

  lemma FourAtMost(m: map<Inode, LockId>, a: Inode, b: Inode, c: Inode, d: Inode)
    requires m.Keys <= {a, b, c, d}
    ensures |m| <= 4
  {
    assert |m| == |m.Keys|;
    FewerIn(m.Keys, {a, b, c, d});
  }

  lemma {:induction false} FewerIn(x: set<Inode>, y: set<Inode>)
    requires x <= y
    ensures |x| <= |y|
  {
    if x != {} {
      var i :| i in x;
      FewerIn(x - {i}, y - {i});
    }
  }

  lemma SmallerMap(m: map<Inode, LockId>, i: Inode)
    requires i in m
    ensures |m - {i}| < |m|
  {
    assert (m - {i}).Keys == m.Keys - {i};
    assert |m - {i}| == |(m - {i}).Keys| && |m| == |m.Keys|;
  }

  /** A rename never holds more than four locks. */
  lemma FewLocks(a: RenameArgs, pc: RenamePc)
    requires !pc.ReleaseAll?
    ensures |HeldInRename(a, pc)| <= 4
    ensures pc.ReadSource? || pc.ReadTarget? || pc.Touch? ==> HeldInRename(a, pc) == HeldBy(a, pc.l)
  {
    var early := pc.LockParent? || pc.LockNewParent? || pc.FindSource? || pc.LockSource?;
    var src := if early then a.parent else if pc.FindTarget? || pc.LockTarget? then pc.src else pc.l.src;
    var dst := if early || pc.FindTarget? || pc.LockTarget? || pc.l.dst.None? then src else pc.l.dst.value;
    FourAtMost(HeldInRename(a, pc), a.parent, a.newParent, src, dst);
  }

  // ------------------------------------------------------------------ replies

  predicate Nearer(pc: RenamePc, next: Next) {
    next.Go? ==>
      (next.txn.Renaming? && RenameLeft(next.txn.pc) < RenameLeft(pc)) || (next.txn.Finished? && RenameLeft(pc) > 0)
  }

  lemma ReleaseAdvances(a: RenameArgs, pc: RenamePc, choice: Inode, o: Outcome)
    requires pc.ReleaseAll? && choice in pc.guard
    ensures Nearer(pc, ResumeRename(a, pc, choice, o))
  {
    SmallerMap(pc.guard, choice);
  }

  lemma RenameAdvances(a: RenameArgs, pc: RenamePc, choice: Inode, o: Outcome)
    requires !pc.ReleaseAll?
    ensures Nearer(pc, ResumeRename(a, pc, choice, o))
  {
    hide HeldInRename, HeldBy, RenameDenied;
    FewLocks(a, pc);
  }

  /** A removal that does not take out the entry goes on with the inode that the name points at. */
  lemma RemovalAdvances(s: Sys, t: Txn, now: Timestamp, choice: Inode)
    requires TakesEntry(t) && Knows(s.meta, t) && ActionOf(t, choice).Propose?
    ensures var step := Execute(s, ActionOf(t, choice).request, now);
            var next := Resume(t, choice, step.outcome);
            next.Go? ==> Left(step.meta, next.txn) < Left(s.meta, t)
  {
    hide RemoveLinkStep, CommitOwner, CommitAttr, CommitXattr, CommitInode, RenameAction, ResumeRename, HasEntries,
         RemoveRefusal, MayChange, RenameLeft;
    match t
    case UnlinkStart(p, n, c) => RemoveAnswer(s.meta, (p, n), None, c, now);
    case RemovalTrying(_, p, n, c, i, _, u) => RemoveAnswer(s.meta, (p, n), Some(InodeUidPair(i, u)), c, now);
  }

  /** All other replies bring a transaction nearer whatever they say. */
  lemma ReplyAdvances(m: Meta, m': Meta, t: Txn, choice: Inode, o: Outcome)
    requires !t.Renaming? && !TakesEntry(t) && !ActionOf(t, choice).Stop?
    requires t.RmdirStart? ==> o == LookupOutcome(m, t.parent, t.name, t.context)
    requires !OnRow(t) && !MakesEntry(t) ==> m' == m
    ensures var next := Resume(t, choice, o); next.Go? ==> Left(m', next.txn) < Left(m, t)
  {
    hide ResumeRename, RenameAction, LookupOutcome, FindRefusal, RenameLeft;
    if t.RmdirStart? {
      LookupAnswer(m, t.parent, t.name, t.context);
    }
  }

  /** Each step of a transaction that does not stop the run brings it nearer to its end. */
  lemma StepAdvances(s: Sys, t: nat, now: Timestamp, newLock: LockId, choice: Inode)
    requires Inv(s) && t in s.txns && Enabled(s, TxnStep(t, now, newLock, choice))
    requires Apply(s, TxnStep(t, now, newLock, choice)).crash.None?
    ensures var s' := Apply(s, TxnStep(t, now, newLock, choice));
            t in s'.txns && Left(s'.meta, Now(s', t)) < Left(s.meta, Now(s, t))
  {
    hide Inv, Enabled, Apply, Knows, OwedOk, Resume, Execute, GetAttributes, LookupOutcome, ResumeRename, RenameAction,
         RenameLeft;
    StepForm(s, TxnStep(t, now, newLock, choice));
    TxnIs(s, t);
    var txn, s' := s.txns[t], Apply(s, TxnStep(t, now, newLock, choice));
    var o := ReplyTo(s, ActionOf(txn, choice), now, newLock);
    if txn.Renaming? {
      RenameStepAdvances(txn, choice, o);
    } else if TakesEntry(txn) {
      RemovalAdvances(s, txn, now, choice);
    } else {
      ReplyAdvances(s.meta, s'.meta, txn, choice, o);
    }
  }

  lemma RenameStepAdvances(t: Txn, choice: Inode, o: Outcome)
    requires t.Renaming? && !ActionOf(t, choice).Stop?
    ensures Nearer(t.pc, Resume(t, choice, o))
  {
    hide ResumeRename, RenameLeft;
    if t.pc.ReleaseAll? {
      ReleaseAdvances(t.args, t.pc, choice, o);
    } else {
      RenameAdvances(t.args, t.pc, choice, o);
    }
  }

  // ------------------------------------------------------------------ nobody is stuck

  /** A transaction that is not done has a next step, or its next request waits for a lock. */
  lemma NeverStuck(s: Sys, t: nat, now: Timestamp, newLock: LockId) returns (choice: Inode)
    requires Inv(s) && s.crash.None? && t in s.txns && !Now(s, t).Finished? && KernelValidated(s.meta, Now(s, t))
    ensures Enabled(s, TxnStep(t, now, newLock, choice))
         || (ActionOf(Now(s, t), choice).Propose? && MustWait(s.locks, ActionOf(Now(s, t), choice).request))
  {
    hide Inv, KernelValidated, MustWait, HeldBy;
    TxnIs(s, t);
    if s.txns[t].Renaming? && s.txns[t].pc.ReleaseAll? {
      choice :| choice in s.txns[t].pc.guard;
    } else {
      choice := 0;
    }
  }

  /** A transaction that takes all the steps of a run has taken no more than it had to: at most twenty from
      its start to its end. */
  lemma {:induction false} AloneItFinishes(s: Sys, labels: seq<Label>, t: nat)
    requires Inv(s) && ValidRun(s, labels) && t in s.txns && Run(s, labels).crash.None?
    requires forall l :: l in labels ==> l.TxnStep? && l.t == t
    ensures t in Run(s, labels).txns
    ensures |labels| + Left(Run(s, labels).meta, Now(Run(s, labels), t)) <= Left(s.meta, Now(s, t))
    ensures IsStart(Now(s, t)) ==> |labels| <= 20
    decreases |labels|
  {
    hide Inv, Enabled, Apply, Left;
    assert IsStart(s.txns[t]) ==> Left(s.meta, s.txns[t]) <= 20 by { AtMostTwenty(s.meta, s.txns[t]); }
    if labels != [] {
      var l, s' := labels[0], Apply(s, labels[0]);
      StepKeepsInv(s, l);
      if s'.crash.None? {
        StepAdvances(s, t, l.now, l.newLock, l.choice);
        AloneItFinishes(s', labels[1..], t);
      } else {
        StoppedRun(s', labels[1..]);
      }
    }
  }

  lemma AtMostTwenty(m: Meta, t: Txn)
    ensures IsStart(t) ==> Left(m, t) <= 20
  {}

  lemma StoppedRun(s: Sys, labels: seq<Label>)
    requires s.crash.Some? && ValidRun(s, labels)
    ensures Run(s, labels) == s
  {
    hide Apply;
  }

  /** A rename past its checks always has a next step, unless it is about to drop a file with no link left;
      each of its steps brings it nearer to success, and nobody else's step can turn it back. */
  lemma CommittedFinishes(s: Sys, t: nat, now: Timestamp, newLock: LockId) returns (choice: Inode)
    requires Inv(s) && s.crash.None? && t in s.txns && !Now(s, t).Finished? && !TargetUnderflows(s, t)
    requires Committed(Now(s, t)) || Writing(Now(s, t))
    ensures Enabled(s, TxnStep(t, now, newLock, choice))
    ensures var s' := Apply(s, TxnStep(t, now, newLock, choice));
            && s'.crash.None? && t in s'.txns && Committed(Now(s', t))
            && Left(s'.meta, Now(s', t)) < Left(s.meta, Now(s, t))
  {
    hide Inv, HeldBy, ActionOf, CommitMeta, Apply, Enabled, Left;
    if Writing(s.txns[t]) {
      choice := 0;
      RenameCannotFail(s, t, now, newLock, choice);
    } else {
      choice := ReleaseGoesOn(s, t, now, newLock);
      OwnStep(s, t, now, newLock, choice);
    }
    StepAdvances(s, t, now, newLock, choice);
  }

  /** A lock that a rename has done with can always be released. */
  lemma ReleaseGoesOn(s: Sys, t: nat, now: Timestamp, newLock: LockId) returns (choice: Inode)
    requires Inv(s) && s.crash.None? && t in s.txns && Now(s, t).Renaming? && Now(s, t).pc.ReleaseAll?
    ensures Enabled(s, TxnStep(t, now, newLock, choice))
    ensures Apply(s, TxnStep(t, now, newLock, choice)).crash.None?
  {
    hide Inv, Apply, DirectoryEntries;
    TxnIs(s, t);
    choice :| choice in s.txns[t].pc.guard;
    TxnStepKeepsInv(s, t, now, newLock, choice);
  }
}
