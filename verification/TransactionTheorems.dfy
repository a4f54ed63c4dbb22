/** Create, hardlink, unlink and rmdir are all or nothing, whatever else goes on in the meantime. */
module TransactionTheorems {
  import opened Types
  import opened Access
  import opened Metadata
  import opened Coordinator
  import opened Cluster
  import opened ClusterRuns
  import opened Invariant
  import opened LinkLedger
  import opened TransactionSteps
  import opened LockSteps
  import opened Safety
  import opened LinkLoss
  import opened RenameTheorems
  import opened Guarantees
  import opened RmdirTargets

  // ------------------------------------------------------------------ what a transaction's own steps do

  datatype Change = Added(key: DirKey, link: Link) | Removed(key: DirKey, link: Link)

  /** The step makes exactly this change to the directories. */
  ghost predicate Makes(m: Meta, m': Meta, c: Change) {
    match c
    case Added(k, e) => k !in m.dir && m'.dir == m.dir[k := e]
    case Removed(k, e) => k in m.dir && m.dir[k] == e && m'.dir == m.dir - {k}
  }

  /** Of all the steps that transaction t takes in this run, exactly one changes the directories, and it
      makes this change; or none does. */
  ghost predicate OwnChange(s: Sys, labels: seq<Label>, t: nat, change: Option<Change>)
    decreases |labels|
  {
    if labels == [] then change.None?
    else
      var s' := Apply(s, labels[0]);
      if labels[0].TxnStep? && labels[0].t == t && s'.meta.dir != s.meta.dir then
        change.Some? && Makes(s.meta, s'.meta, change.value) && OwnChange(s', labels[1..], t, None)
      else OwnChange(s', labels[1..], t, change)
  }

  /** What a change does to the number of entries of inode i. */
  function Effect(change: Option<Change>, i: Inode): int {
    match change
    case None => 0
    case Some(Added(_, e)) => One(e.inode == i)
    case Some(Removed(_, e)) => -One(e.inode == i)
  }

  /** The links of an inode, without the one a directory has to itself. */
  function LinkCount(m: Meta, i: Inode): int {
    if i !in m.attrs then 0 else m.attrs[i].hardlinks - One(m.attrs[i].kind == Directory)
  }

  /** By how much the steps of transaction t, and they alone, change an inode's link count. */
  ghost function OwnLinks(s: Sys, labels: seq<Label>, t: nat, i: Inode): int
    decreases |labels|
  {
    if labels == [] then 0
    else
      var s' := Apply(s, labels[0]);
      (if labels[0].TxnStep? && labels[0].t == t then LinkCount(s'.meta, i) - LinkCount(s.meta, i) else 0)
      + OwnLinks(s', labels[1..], t, i)
  }

  // ------------------------------------------------------------------ links follow entries

  lemma CountIsRefs(s: Sys, i: Inode)
    requires Inv(s) && i != ROOT_INODE && i !in s.spoiled
    ensures LinkCount(s.meta, i) == EntriesTo(s.meta.dir, i) + Pluses(s.txns, i) - Minuses(s.txns, i)
  {
    hide LocksOk, FreshOk, SpoiledOk, EntriesTo, Pluses, Minuses, TxnsOk, EntriesOk;
    if i !in s.meta.attrs {
      NoRefsToMissing(s.meta, s.txns, i, s.spoiled);
    }
  }

  /** A step changes a link count by what it adds to the entries, and by what its transaction now has to
      add or give back. */
  lemma OwnStepLinks(s: Sys, l: Label, i: Inode)
    requires Inv(s) && Enabled(s, l) && l.TxnStep? && l.t in s.txns && i != ROOT_INODE && i !in Apply(s, l).spoiled
    ensures var s' := Apply(s, l);
            && l.t in s'.txns
            && LinkCount(s'.meta, i) - LinkCount(s.meta, i)
               == EntriesTo(s'.meta.dir, i) - EntriesTo(s.meta.dir, i)
                  + Balance(s'.txns[l.t], i) - Balance(s.txns[l.t], i)
  {
    hide Inv, Enabled, Apply, EntriesTo, Pluses, Minuses, LinkCount, Plus, Minus, BreaksLinks;
    var s' := Apply(s, l);
    StepKeepsInv(s, l);
    SpoiledByStep(s, l);
    OnlyOwnTxn(s, l);
    CountIsRefs(s, i);
    CountIsRefs(s', i);
    PlusesPut(s.txns, l.t, s'.txns[l.t], i);
    MinusesPut(s.txns, l.t, s'.txns[l.t], i);
  }

  lemma OnlyOwnTxn(s: Sys, l: Label)
    requires Enabled(s, l) && l.TxnStep?
    ensures var s' := Apply(s, l); l.t in s'.txns && s'.txns == s.txns[l.t := s'.txns[l.t]]
  {
    hide ActionOf, Execute, Resume, GetAttributes, LookupOutcome, ShowsHeldLock, MustWait, KernelValidated,
         SpoiledAfter;
  }

  /** What is spoiled stays spoiled. */
  lemma {:induction false} SpoiledForGood(s: Sys, labels: seq<Label>)
    requires ValidRun(s, labels)
    ensures s.spoiled <= Run(s, labels).spoiled
    decreases |labels|
  {
    hide Enabled, Apply, BreaksLinks;
    if labels != [] {
      BreaksByDrop(s, labels[0]);
      SpoiledByStep(s, labels[0]);
      SpoiledForGood(Apply(s, labels[0]), labels[1..]);
    }
  }

  lemma ChangeCounts(m: Meta, m': Meta, c: Change, i: Inode)
    requires Makes(m, m', c)
    ensures EntriesTo(m'.dir, i) - EntriesTo(m.dir, i) == Effect(Some(c), i)
  {
    hide EntriesTo;
    match c
    case Added(k, e) => EntriesToPut(m.dir, k, e, i);
    case Removed(k, e) => EntriesToRemove(m.dir, k, i);
  }

  lemma {:induction false} OwnLinksFollowEntries(s: Sys, labels: seq<Label>, t: nat, change: Option<Change>, i: Inode)
    requires Inv(s) && ValidRun(s, labels) && t in s.txns && i != ROOT_INODE && i !in Run(s, labels).spoiled
    requires OwnChange(s, labels, t, change)
    ensures t in Run(s, labels).txns
    ensures OwnLinks(s, labels, t, i) == Effect(change, i) + Balance(Now(Run(s, labels), t), i) - Balance(Now(s, t), i)
    decreases |labels|
  {
    hide Inv, Enabled, Apply, LinkCount, Balance, Makes, EntriesTo;
    if labels != [] {
      var l, s' := labels[0], Apply(s, labels[0]);
      StepKeepsInv(s, l);
      SpoiledForGood(s', labels[1..]);
      if l.TxnStep? && l.t == t {
        OwnStepLinks(s, l, i);
        if s'.meta.dir != s.meta.dir {
          ChangeCounts(s.meta, s'.meta, change.value, i);
          OwnLinksFollowEntries(s', labels[1..], t, None, i);
        } else {
          OwnLinksFollowEntries(s', labels[1..], t, change, i);
        }
      } else {
        OtherStep(s, l, t);
        OwnLinksFollowEntries(s', labels[1..], t, change, i);
      }
    }
  }

  // ------------------------------------------------------------------ one step in full

  // ------------------------------------------------------------------ the requests

  datatype Asked =
    | ToCreate(parent: Inode, name: Name, kind: FileKind)
    | ToLink(inode: Inode, parent: Inode, name: Name)
    | ToUnlink(parent: Inode, name: Name)
    | ToRmdir(parent: Inode, name: Name)

  function Removing(job: Job, p: Inode, n: Name): Asked { if job == RemoveDir then ToRmdir(p, n) else ToUnlink(p, n) }

  /** The transaction is at work on this request. */
  predicate Serves(t: Txn, q: Asked) {
    match t
    case CreateStart(_, p, n, _, _, _, k) => q == ToCreate(p, n, k)
    case CreateLinking(p, n, _, k, _, _) => q == ToCreate(p, n, k)
    case CreateUndo(_, _, _) => q.ToCreate?
    case HardlinkStart(i, p, n, _) => q == ToLink(i, p, n)
    case HardlinkLinking(i, p, n, _, _, _) => q == ToLink(i, p, n)
    case HardlinkUndo(_, _, _) => q.ToLink?
    case UnlinkStart(p, n, _) => q == ToUnlink(p, n)
    case RmdirStart(p, n, _) => q == ToRmdir(p, n)
    case RemovalLocking(job, p, n, _, _) => q == Removing(job, p, n)
    case RemovalReading(job, p, n, _, _, _) => q == Removing(job, p, n)
    case RemovalTrying(job, p, n, _, _, _, _) => q == Removing(job, p, n)
    case RemovalUnlocking(job, p, n, _, _, _, _) => q == Removing(job, p, n)
    case RmdirChecking(_) => q.ToRmdir?
    case RemovalDropping(job, _) => if job == RemoveDir then q.ToRmdir? else q.ToUnlink?
    case Renaming(_, _) => false
    case Finished(_) => true
  }

  /** The change that was asked for. */
  predicate IsAsked(q: Asked, c: Change) {
    match q
    case ToCreate(p, n, k) => c.Added? && c.key == (p, n) && c.link.kind == k
    case ToLink(i, p, n) => c.Added? && c.key == (p, n) && c.link.inode == i
    case ToUnlink(p, n) => c.Removed? && c.key == (p, n)
    case ToRmdir(p, n) => c.Removed? && c.key == (p, n)
  }

  /** It has failed, and has only to clean up. */
  predicate HasFailed(t: Txn) {
    || t.CreateUndo? || t.HardlinkUndo? || (t.RemovalUnlocking? && t.cont.Give?) || (t.Finished? && t.result.Failure?)
  }

  /** It has changed the directory, and succeeds unless the inode is gone. */
  predicate HasChanged(t: Txn) {
    || (t.RemovalUnlocking? && t.cont.Drop?) || t.RmdirChecking? || t.RemovalDropping? || t == Finished(Success)
  }

  /** It still owes the same inode a decrement, or has given it back. */
  predicate KeepsDebt(t: Txn, t': Txn) { Plus(t') == Plus(t) || t' == Finished(Success) }

  /** It has found an error instead of the inode. */
  predicate FailsOnDebt(t: Txn, t': Txn, o: Outcome) {
    (t.RmdirChecking? || t.RemovalDropping?) && o.Err? && t' == Finished(Failure(o.error))
  }

  predicate MakesEntry(t: Txn) { t.CreateLinking? || t.HardlinkLinking? }

  predicate TakesEntry(t: Txn) { t.UnlinkStart? || t.RemovalTrying? }

  predicate IsRemoval(o: Outcome) { o.Ok? && o.response.RemovedInode? && o.response.complete }

  lemma AfterReply(t: Txn, q: Asked, choice: Inode, o: Outcome)
    requires Serves(t, q) && Resume(t, choice, o).Go?
    ensures var t' := Resume(t, choice, o).txn;
            && Serves(t', q)
            && (HasFailed(t) ==> HasFailed(t'))
            && (HasChanged(t) ==> if o.Ok? then HasChanged(t') && KeepsDebt(t, t') else FailsOnDebt(t, t', o))
            && (!HasChanged(t) ==>
                 (HasChanged(t') <==> (MakesEntry(t) && o.Ok?) || (TakesEntry(t) && IsRemoval(o))))
  {
    hide ResumeRename;
  }

  // ------------------------------------------------------------------ the entry of each step

  lemma EntryMade(s: Sys, l: Label, q: Asked, step: Step) returns (change: Option<Change>)
    requires l.TxnStep? && l.t in s.txns && MakesEntry(s.txns[l.t]) && Serves(s.txns[l.t], q)
    requires ActionOf(s.txns[l.t], l.choice).Propose?
    requires step == Execute(s, ActionOf(s.txns[l.t], l.choice).request, l.now)
    ensures change.Some? <==> step.outcome.Ok?
    ensures if change.Some? then
              IsAsked(q, change.value) && Makes(s.meta, step.meta, change.value) && step.meta.dir != s.meta.dir
            else step.meta.dir == s.meta.dir
  {
    hide CreateLinkStep, CommitOwner, CommitAttr, CommitXattr, CommitInode, Stamped;
    var txn := s.txns[l.t];
    CreateLinkEffect(s.meta, txn.inode, txn.parent, txn.name, txn.context, txn.kind, l.now);
    change := if step.outcome.Ok? then Some(Added((txn.parent, txn.name), Link(txn.inode, txn.kind))) else None;
  }

  lemma EntryTaken(s: Sys, l: Label, q: Asked, step: Step) returns (change: Option<Change>)
    requires l.TxnStep? && l.t in s.txns && TakesEntry(s.txns[l.t]) && Serves(s.txns[l.t], q)
    requires ActionOf(s.txns[l.t], l.choice).Propose?
    requires step == Execute(s, ActionOf(s.txns[l.t], l.choice).request, l.now)
    ensures change.Some? <==> step.outcome.Ok? && step.outcome.response.RemovedInode? && step.outcome.response.complete
    ensures if change.Some? then
              IsAsked(q, change.value) && Makes(s.meta, step.meta, change.value) && step.meta.dir != s.meta.dir
              && change.value.link.inode == step.outcome.response.id
            else step.meta.dir == s.meta.dir
  {
    hide RemoveLinkStep, CommitOwner, CommitAttr, CommitXattr, CommitInode, Stamped;
    var txn := s.txns[l.t];
    var k := (txn.parent, txn.name);
    var known := if txn.UnlinkStart? then None else Some(InodeUidPair(txn.inode, txn.ownerUid));
    RemoveLinkEffect(s.meta, txn.parent, txn.name, known, txn.context, l.now);
    change := if step.outcome.Ok? && step.outcome.response.complete then Some(Removed(k, s.meta.dir[k])) else None;
  }

  /** Every other step leaves the directories alone. */
  lemma EntriesKept(s: Sys, l: Label)
    requires Enabled(s, l) && l.TxnStep? && !s.txns[l.t].Renaming? && !MakesEntry(s.txns[l.t])
    requires !TakesEntry(s.txns[l.t])
    ensures Apply(s, l).meta.dir == s.meta.dir
  {
    hide Resume, CommitMeta, CountersAfter, ShowsHeldLock, KernelValidated, MustWait, GetAttributes, LookupOutcome,
         ResumeRename;
    var a := ActionOf(s.txns[l.t], l.choice);
    if a.Propose? && !a.request.Lock? && !a.request.Unlock? {
      OnlyLinkRequestsChangeEntries(TablesFor(s, a.request), a.request, l.now);
    }
  }

  /** A transaction that has changed the directory is answered with an error exactly if it asks for the
      inode and the inode is gone. */
  lemma DebtErrors(s: Sys, l: Label)
    requires Enabled(s, l) && l.TxnStep? && l.t in s.txns && HasChanged(s.txns[l.t])
    ensures !ActionOf(s.txns[l.t], l.choice).Stop?
    ensures var txn := s.txns[l.t]; var o := ReplyTo(s, ActionOf(txn, l.choice), l.now, l.newLock);
            && (o.Err? <==> (txn.RmdirChecking? || txn.RemovalDropping?) && txn.inode !in s.meta.attrs)
            && (o.Err? ==> o == Err(InodeDoesNotExist))
  {
    hide CommitOwner, CommitAttr, CommitXattr, CommitLink, MetadataOf, DirectoryEntries;
  }

  /** So it fails after all if and only if the inode is gone when its links are counted or given back. */
  lemma FailsIffGone(s: Sys, l: Label)
    requires Enabled(s, l) && l.TxnStep? && l.t in s.txns && HasChanged(s.txns[l.t]) && Apply(s, l).crash.None?
    ensures var txn := s.txns[l.t];
            && l.t in Apply(s, l).txns
            && (HasFailed(Apply(s, l).txns[l.t]) <==>
                (txn.RmdirChecking? || txn.RemovalDropping?) && txn.inode !in s.meta.attrs)
  {
    hide CommitOwner, CommitAttr, CommitXattr, CommitLink, DirectoryEntries, ResumeRename, RenameAction, SpoiledAfter;
  }

  /** Inode i is a spoiled file, and is gone. */
  predicate Gone(s: Sys, i: Inode) { i in s.spoiled && i !in s.meta.attrs }

  /** The transaction has given up because the inode that it owes a decrement is gone. */
  predicate GivesUp(s: Sys, t: Txn, t': Txn) {
    Plus(t).Some? && Gone(s, Plus(t).value) && t' == Finished(Failure(InodeDoesNotExist))
  }

  /** The next step of a transaction: what it changes, and where it leaves the transaction. */
  lemma OwnStepChange(s: Sys, l: Label, q: Asked) returns (change: Option<Change>)
    requires Inv(s) && Enabled(s, l) && l.TxnStep? && l.t in s.txns && Serves(s.txns[l.t], q)
    ensures var s', t := Apply(s, l), s.txns[l.t];
            && l.t in s'.txns && Serves(s'.txns[l.t], q)
            && (HasFailed(t) ==> HasFailed(s'.txns[l.t]) && change.None?)
            && (HasChanged(t) ==>
                  && change.None?
                  && ((HasChanged(s'.txns[l.t]) && KeepsDebt(t, s'.txns[l.t])) || GivesUp(s, t, s'.txns[l.t])))
            && (!HasChanged(t) ==> (HasChanged(s'.txns[l.t]) <==> change.Some?))
            && if change.Some? then
                 IsAsked(q, change.value) && Makes(s.meta, s'.meta, change.value) && s'.meta.dir != s.meta.dir
               else s'.meta.dir == s.meta.dir
    ensures change.Some? ==>
              if change.value.Removed? then Plus(Apply(s, l).txns[l.t]) == Some(change.value.link.inode)
              else Apply(s, l).txns[l.t] == Finished(Success)
    ensures change.Some? && q.ToRmdir? ==>
              change.value.Removed? && RmdirOwes(Apply(s, l).txns[l.t]) == Some(change.value.link.inode)
  {
    hide Inv, Enabled, Apply, ActionOf, Resume, Execute, Serves, IsAsked, Makes, GetAttributes, LookupOutcome,
         RmdirOwes, Plus;
    var txn := s.txns[l.t];
    var a := ActionOf(txn, l.choice);
    StepForm(s, l);
    var o := ReplyTo(s, a, l.now, l.newLock);
    change := None;
    if Apply(s, l).crash.None? {
      AfterReply(txn, q, l.choice, o);
      if HasChanged(txn) {
        DebtErrors(s, l);
        NoPanic(txn, l.choice, o);
        if o.Err? {
          DebtIsSpoiled(s, l.t);
        }
      }
      if MakesEntry(txn) {
        Executes(txn, l.choice);
        change := EntryMade(s, l, q, Execute(s, a.request, l.now));
        MakingAdds(q, txn, change, l.choice, o);
      } else if TakesEntry(txn) {
        Executes(txn, l.choice);
        change := EntryTaken(s, l, q, Execute(s, a.request, l.now));
        TakingRemoves(q, txn, change);
        if change.Some? {
          OwesWhatWasTaken(txn, q, l.choice, o);
        }
      } else {
        NoRename(txn, q);
        EntriesKept(s, l);
      }
    }
    if q.ToRmdir? {
      RmdirRemoves(q, txn, change);
    }
  }

  /** Whoever still owes a decrement to an inode that is gone owes it to a spoiled one. */
  lemma DebtIsSpoiled(s: Sys, t: nat)
    requires Inv(s) && t in s.txns && (s.txns[t].RmdirChecking? || s.txns[t].RemovalDropping?)
    requires s.txns[t].inode !in s.meta.attrs
    ensures Plus(s.txns[t]) == Some(s.txns[t].inode) && Gone(s, s.txns[t].inode)
  {
    hide Inv;
    TxnIs(s, t);
  }

  lemma MakingAdds(q: Asked, t: Txn, change: Option<Change>, choice: Inode, o: Outcome)
    requires Serves(t, q) && MakesEntry(t)
    ensures change.Some? && IsAsked(q, change.value) ==> change.value.Added?
    ensures o.Ok? ==> Resume(t, choice, o) == Go(Finished(Success))
  {}

  lemma TakingRemoves(q: Asked, t: Txn, change: Option<Change>)
    requires Serves(t, q) && TakesEntry(t)
    ensures change.Some? && IsAsked(q, change.value) ==> change.value.Removed?
  {}

  lemma NoPanic(t: Txn, choice: Inode, o: Outcome)
    requires HasChanged(t)
    ensures o.Panicked? ==> !Resume(t, choice, o).Go?
  {}

  lemma Executes(t: Txn, choice: Inode)
    requires MakesEntry(t) || TakesEntry(t)
    ensures var a := ActionOf(t, choice); a.Propose? && !a.request.Lock? && !a.request.Unlock?
  {}

  lemma RmdirRemoves(q: Asked, t: Txn, change: Option<Change>)
    requires Serves(t, q) && q.ToRmdir?
    ensures !MakesEntry(t)
    ensures change.Some? && IsAsked(q, change.value) ==> change.value.Removed?
  {}

  lemma OwesWhatWasTaken(t: Txn, q: Asked, choice: Inode, o: Outcome)
    requires TakesEntry(t) && Serves(t, q) && Resume(t, choice, o).Go? && o.Ok? && o.response.RemovedInode?
    requires o.response.complete
    ensures Plus(Resume(t, choice, o).txn) == Some(o.response.id)
    ensures q.ToRmdir? ==> RmdirOwes(Resume(t, choice, o).txn) == Some(o.response.id)
  {}

  lemma NoRename(t: Txn, q: Asked)
    requires Serves(t, q)
    ensures !t.Renaming?
  {}

  // ------------------------------------------------------------------ over a run

  /** An rmdir goes on to delete what it has removed; if that has not been spoiled, it is a directory. */
  lemma DebtIsPaid(s: Sys, l: Label, i: Inode)
    requires Inv(s) && Enabled(s, l) && l.TxnStep? && l.t in s.txns && RmdirOwes(s.txns[l.t]) == Some(i)
    requires Apply(s, l).crash.None?
    ensures l.t in Apply(s, l).txns
    ensures || RmdirOwes(Apply(s, l).txns[l.t]) == Some(i) || i in Apply(s, l).spoiled
            || (i in s.meta.attrs && s.meta.attrs[i].kind == Directory)
  {
    hide Inv, Enabled, Apply, Execute, GetAttributes, LookupOutcome, ResumeRename, RenameAction, DirectoryEntries,
         RenameKnows;
    var txn := s.txns[l.t];
    TxnIs(s, l.t);
    DebtErrors(s, l);
    StepForm(s, l);
    SpoiledByStep(s, l);
    if DropsFile(s, l.t) && !BreaksLinks(s, l) {
      FileStops(s, l.t, l.now, l.newLock, l.choice);
    }
  }

  lemma {:induction false} NothingAfterStop(s: Sys, labels: seq<Label>)
    requires s.crash.Some? && ValidRun(s, labels)
    ensures labels == []
  {}

  lemma NotFinished(s: Sys, l: Label)
    requires Enabled(s, l) && l.TxnStep?
    ensures l.t in s.txns && !s.txns[l.t].Finished?
  {}

  /** What rmdir has removed, unless it is in x, is a directory. */
  ghost predicate OwesLiveDirectory(m: Meta, t: Txn, x: set<Inode>) {
    RmdirOwes(t).Some? && RmdirOwes(t).value !in x ==>
      RmdirOwes(t).value in m.attrs && m.attrs[RmdirOwes(t).value].kind == Directory
  }

  lemma DirectoryBefore(s: Sys, l: Label, t: nat, x: set<Inode>)
    requires Inv(s) && Enabled(s, l) && t in s.txns && Apply(s, l).crash.None? && s.spoiled <= Apply(s, l).spoiled <= x
    requires t in Apply(s, l).txns && OwesLiveDirectory(Apply(s, l).meta, Now(Apply(s, l), t), x)
    ensures OwesLiveDirectory(s.meta, Now(s, t), x)
  {
    hide Inv, Enabled, Apply, RmdirOwes, FreshOk, SpoiledOk, Knows;
    var owed := RmdirOwes(s.txns[t]);
    if owed.Some? && owed.value !in x {
      InvParts(s, t);
      assert owed.value in s.meta.attrs by { OwedIsLive(s.meta, s.txns[t], s.spoiled); }
      if l.TxnStep? && l.t == t {
        DebtIsPaid(s, l, owed.value);
      } else {
        OtherStep(s, l, t);
      }
      if owed.value in Apply(s, l).meta.attrs {
        StepKeepsKinds(s, l, owed.value);
      }
    }
  }

  lemma OwedIsLive(m: Meta, t: Txn, x: set<Inode>)
    requires TxnOk(m, t, x) && RmdirOwes(t).Some? && RmdirOwes(t).value !in x
    ensures RmdirOwes(t).value in m.attrs
  {}

  /** The entry taken was that of a directory. */
  lemma TookDirectory(s: Sys, l: Label, c: Change, x: set<Inode>)
    requires Inv(s) && Enabled(s, l) && l.TxnStep? && l.t in s.txns && c.Removed? && Makes(s.meta, Apply(s, l).meta, c)
    requires l.t in Apply(s, l).txns && RmdirOwes(Apply(s, l).txns[l.t]) == Some(c.link.inode)
    requires OwesLiveDirectory(Apply(s, l).meta, Apply(s, l).txns[l.t], x) && s.spoiled <= x && c.link.inode !in x
    ensures c.link.kind == Directory
  {
    hide LedgerOk, LocksOk, TxnsOk, SpoiledOk, Enabled, Apply, FreshOk, RmdirOwes;
    assert EntryOk(s.meta, s.meta.dir[c.key]);
    StepKeepsKinds(s, l, c.link.inode);
  }

  /** A step that stops the run is not one of a transaction that comes to an end. */
  lemma GoesOnToEnd(s: Sys, labels: seq<Label>)
    requires Inv(s) && ValidRun(s, labels) && labels != [] && labels[0].TxnStep?
    requires var t := labels[0].t; t in Run(s, labels).txns && Run(s, labels).txns[t].Finished?
    ensures Apply(s, labels[0]).crash.None?
  {
    hide Inv, Enabled, Apply;
    var s' := Apply(s, labels[0]);
    NotFinished(s, labels[0]);
    StepForm(s, labels[0]);
    if s'.crash.Some? {
      NothingAfterStop(s', labels[1..]);
    }
  }

  /** A spoiled file that is gone stays so. */
  lemma {:induction false} GoneForGood(s: Sys, labels: seq<Label>, i: Inode)
    requires Inv(s) && ValidRun(s, labels) && Gone(s, i)
    ensures Gone(Run(s, labels), i)
    decreases |labels|
  {
    hide Inv, Enabled, Apply, BreaksLinks;
    if labels != [] {
      var s' := Apply(s, labels[0]);
      StepKeepsInv(s, labels[0]);
      GoneIsRetired(s, i);
      RetiredStays(s, labels[0], i);
      BreaksByDrop(s, labels[0]);
      SpoiledByStep(s, labels[0]);
      GoneForGood(s', labels[1..], i);
    }
  }

  lemma GoneIsRetired(s: Sys, i: Inode)
    requires Inv(s) && Gone(s, i)
    ensures FreshOk(s) && Retired(s, i)
  {
    hide LedgerOk, LocksOk, TxnsOk, EntriesOk;
  }

  /** How a transaction that has removed an entry to inode i ends. */
  ghost predicate EndsWell(s: Sys, t: nat, i: Option<Inode>) {
    t in s.txns && (s.txns[t] == Finished(Success)
                    || (s.txns[t] == Finished(Failure(InodeDoesNotExist)) && i.Some? && Gone(s, i.value)))
  }

  /** From any point on: a transaction that has failed or has changed the directory changes it no more,
      and any other changes it exactly once or, if it fails, never. */
  ghost predicate RestIs(s: Sys, end: Sys, t: nat, q: Asked, change: Option<Change>) {
    && t in s.txns && t in end.txns && end.txns[t].Finished?
    && (HasFailed(s.txns[t]) ==> change.None? && end.txns[t].result.Failure?)
    && (HasChanged(s.txns[t]) ==> change.None? && EndsWell(end, t, Plus(s.txns[t])))
    && (!HasChanged(s.txns[t]) && change.None? ==> end.txns[t].result.Failure?)
    && (change.Some? ==>
          && IsAsked(q, change.value)
          && EndsWell(end, t, if change.value.Removed? then Some(change.value.link.inode) else None)
          && (q.ToRmdir? && change.value.link.inode !in end.spoiled ==> change.value.link.kind == Directory))
  }

  lemma {:induction false} Rest(s: Sys, labels: seq<Label>, t: nat, q: Asked) returns (change: Option<Change>)
    requires Inv(s) && ValidRun(s, labels) && t in s.txns && Serves(Now(s, t), q)
    requires t in Run(s, labels).txns && Now(Run(s, labels), t).Finished?
    ensures OwnChange(s, labels, t, change) && OwesLiveDirectory(s.meta, Now(s, t), Run(s, labels).spoiled)
    ensures RestIs(s, Run(s, labels), t, q, change)
    decreases |labels|
  {
    hide Inv, Enabled, Apply, BreaksLinks, Serves, Makes, IsAsked;
    if labels == [] {
      change := None;
    } else {
      var l, s', end := labels[0], Apply(s, labels[0]), Run(s, labels);
      StepKeepsInv(s, l);
      assert s.spoiled <= s'.spoiled by { BreaksByDrop(s, l); SpoiledByStep(s, l); }
      SpoiledForGood(s', labels[1..]);
      if l.TxnStep? && l.t == t {
        GoesOnToEnd(s, labels);
        change := OwnRest(s, labels, t, q);
        DirectoryBefore(s, l, t, end.spoiled);
      } else {
        OtherStep(s, l, t);
        change := Rest(s', labels[1..], t, q);
        if s'.crash.None? {
          DirectoryBefore(s, l, t, end.spoiled);
        } else {
          NothingAfterStop(s', labels[1..]);
        }
      }
    }
  }

  lemma {:induction false} OwnRest(s: Sys, labels: seq<Label>, t: nat, q: Asked) returns (change: Option<Change>)
    requires Inv(s) && ValidRun(s, labels) && t in s.txns && Serves(s.txns[t], q)
    requires labels != [] && labels[0].TxnStep? && labels[0].t == t && Apply(s, labels[0]).crash.None?
    requires t in Run(s, labels).txns && Run(s, labels).txns[t].Finished?
    requires s.spoiled <= Apply(s, labels[0]).spoiled <= Run(s, labels).spoiled
    ensures OwnChange(s, labels, t, change) && RestIs(s, Run(s, labels), t, q, change)
    ensures t in Apply(s, labels[0]).txns
    ensures OwesLiveDirectory(Apply(s, labels[0]).meta, Apply(s, labels[0]).txns[t], Run(s, labels).spoiled)
    decreases |labels|, 0
  {
    hide Inv, Enabled, Apply, BreaksLinks, Serves, Makes, IsAsked;
    var l, s', end := labels[0], Apply(s, labels[0]), Run(s, labels);
    StepKeepsInv(s, l);
    change := OwnStepChange(s, l, q);
    var rest := Rest(s', labels[1..], t, q);
    assert end == Run(s', labels[1..]);
    if change.None? {
      change := rest;
      if HasChanged(s.txns[t]) && GivesUp(s, s.txns[t], s'.txns[t]) {
        GoneForGood(s, labels, Plus(s.txns[t]).value);
        FinishedStays(s', labels[1..], t);
      }
    } else if q.ToRmdir? && change.value.link.inode !in end.spoiled {
      TookDirectory(s, l, change.value, end.spoiled);
    }
  }

  /** A finished transaction takes no more steps. */
  lemma {:induction false} FinishedStays(s: Sys, labels: seq<Label>, t: nat)
    requires ValidRun(s, labels) && t in s.txns && Now(s, t).Finished?
    ensures t in Run(s, labels).txns && Now(Run(s, labels), t) == Now(s, t)
    decreases |labels|
  {
    hide Enabled, Apply;
    if labels != [] {
      if labels[0].TxnStep? && labels[0].t == t {
        NotFinished(s, labels[0]);
      }
      OtherStep(s, labels[0], t);
      FinishedStays(Apply(s, labels[0]), labels[1..], t);
    }
  }

  /** What the steps of a create, hardlink, unlink or rmdir have done by its end: if it reports success,
      exactly one has changed the directories, and has made just the change that was asked for; if it
      reports failure, none has, with one exception: an unlink or rmdir has removed an entry whose inode
      was gone, because an rmdir had given back two links of it.  The steps have changed the link counts
      of all inodes that are not spoiled by just what the change calls for, and what rmdir has removed,
      if not spoiled, is a directory.  Create and hardlink have no exception. */
  ghost predicate Outcome(s: Sys, labels: seq<Label>, t: nat, q: Asked, change: Option<Change>) {
    var end := Run(s, labels);
    && t in end.txns && end.txns[t].Finished?
    && OwnChange(s, labels, t, change) && (change.Some? ==> IsAsked(q, change.value))
    && (end.txns[t].result == Success ==> change.Some?)
    && (q.ToCreate? || q.ToLink? ==> (end.txns[t].result == Success <==> change.Some?))
    && (change.Some? && end.txns[t].result != Success ==>
          && end.txns[t].result == Failure(InodeDoesNotExist)
          && change.value.Removed? && Gone(end, change.value.link.inode))
    && (q.ToRmdir? && change.Some? && change.value.link.inode !in end.spoiled ==>
          change.value.link.kind == Directory)
    && (forall i :: i != ROOT_INODE && i !in end.spoiled ==> OwnLinks(s, labels, t, i) == Effect(change, i))
  }

  /** All or nothing, from start to end of a transaction, whatever the others do in between. */
  lemma AllOrNothing(s: Sys, labels: seq<Label>, t: nat, q: Asked) returns (change: Option<Change>)
    requires Inv(s) && ValidRun(s, labels) && t in s.txns
    requires IsStart(Now(s, t)) && Serves(Now(s, t), q)
    requires t in Run(s, labels).txns && Now(Run(s, labels), t).Finished?
    ensures Outcome(s, labels, t, q, change)
  {
    hide Inv, ValidRun, Run, OwnChange, OwnLinks, Serves, OwesLiveDirectory;
    change := Rest(s, labels, t, q);
    forall i | i != ROOT_INODE && i !in Run(s, labels).spoiled
      ensures OwnLinks(s, labels, t, i) == Effect(change, i)
    {
      OwnLinksFollowEntries(s, labels, t, change, i);
    }
  }

  /** So it is for every transaction of every run. */
  lemma AllOrNothingInEveryRun(start: Sys, before: seq<Label>, labels: seq<Label>, t: nat, q: Asked)
      returns (change: Option<Change>)
    requires Initial(start) && ValidRun(start, before) && ValidRun(Run(start, before), labels)
    requires var s := Run(start, before); t in s.txns && IsStart(Now(s, t)) && Serves(Now(s, t), q)
    requires var end := Run(Run(start, before), labels); t in end.txns && Now(end, t).Finished?
    ensures Outcome(Run(start, before), labels, t, q, change)
  {
    hide Initial, Inv, ValidRun, Run, OwnChange, OwnLinks, Serves;
    ReachableInv(start, before);
    change := AllOrNothing(Run(start, before), labels, t, q);
  }
}
