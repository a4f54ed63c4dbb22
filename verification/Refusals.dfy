/** When transactions fail, and why: the errors they report are told by the tables, and nothing that the
    tables allow is refused. */
module Refusals {
  import opened Striping
  import opened Types
  import opened Access
  import opened Metadata
  import opened Coordinator
  import opened Cluster
  import opened Invariant
  import opened RenameSteps
  import opened LockSteps
  import opened Safety
  import opened RenameTheorems
  import opened Guarantees
  import opened RmdirTargets
  import opened TransactionTheorems

  // ------------------------------------------------------------------ reasons

  function Absent(m: Meta, i: Inode): Option<ErrorCode> { if i in m.attrs then None else Some(InodeDoesNotExist) }

  /** A name can be looked up by who may search its directory. */
  function SearchRefusal(m: Meta, k: DirKey, c: UserContext): Option<ErrorCode> {
    if |k.1| > MAX_NAME_LENGTH then Some(NameTooLong)
    else if k.0 !in m.attrs then Some(InodeDoesNotExist)
    else if !Allows(m.attrs[k.0], c, X_OK) then Some(AccessDenied)
    else None
  }

  function FindRefusal(m: Meta, k: DirKey, c: UserContext): Option<ErrorCode> {
    var e := SearchRefusal(m, k, c);
    if e.None? && k !in m.dir then Some(DoesNotExist) else e
  }

  /** An entry can be added where there is none, by who may change it. */
  ghost function AddRefusal(m: Meta, k: DirKey, c: UserContext): Option<ErrorCode> {
    var e := SearchRefusal(m, k, c);
    if e.Some? then e
    else if k in m.dir then Some(AlreadyExists)
    else if !MayChange(m, k, c) then Some(AccessDenied)
    else None
  }

  /** An entry can be removed if it is there.  Who may write to its directory may try; who has been found
      to be its target's owner, or need not be, must be allowed to change it. */
  ghost function RemoveRefusal(m: Meta, k: DirKey, c: UserContext, found: Option<Inode>): Option<ErrorCode> {
    if k.0 !in m.attrs then Some(InodeDoesNotExist)
    else if k !in m.dir then Some(DoesNotExist)
    else if found.None? && !Allows(m.attrs[k.0], c, W_OK) then Some(AccessDenied)
    else if found == Some(m.dir[k].inode) && !MayChange(m, k, c) then Some(AccessDenied)
    else None
  }

  /** Whether the sticky bit of directory p keeps the caller from taking out what points at inode i. */
  predicate Sticks(m: Meta, p: Inode, i: Inode, c: UserContext) {
    && p in m.attrs && i in m.attrs && Sticky(m.attrs[p])
    && c.uid != 0 && c.uid != m.attrs[p].uid && c.uid != m.attrs[i].uid
  }

  ghost predicate IsFullDirectory(m: Meta, i: Inode) {
    i in m.attrs && m.attrs[i].kind == Directory && HasEntries(m, i)
  }

  /** What a rename moves and replaces must be there.  It needs write access to both directories and, to move
      a directory elsewhere, to it; neither sticky bit may forbid it; and it replaces no directory that
      has entries. */
  ghost predicate RenameAllowed(m: Meta, a: RenameArgs, src: Inode, dst: Option<Inode>) {
    && a.parent in m.attrs && Allows(m.attrs[a.parent], a.context, W_OK) && !Sticks(m, a.parent, src, a.context)
    && a.newParent in m.attrs && Allows(m.attrs[a.newParent], a.context, W_OK)
    && (dst.Some? ==>
          dst.value in m.attrs && !Sticks(m, a.newParent, dst.value, a.context) && !IsFullDirectory(m, dst.value))
    && src in m.attrs
    && (m.attrs[src].kind == Directory && a.parent != a.newParent ==> Allows(m.attrs[src], a.context, W_OK))
  }

  /** It is only the entries of the replaced directory that forbid it. */
  ghost predicate OnlyFull(m: Meta, a: RenameArgs, src: Inode, dst: Option<Inode>) {
    && a.parent in m.attrs && Allows(m.attrs[a.parent], a.context, W_OK) && !Sticks(m, a.parent, src, a.context)
    && a.newParent in m.attrs && Allows(m.attrs[a.newParent], a.context, W_OK)
    && dst.Some? && !Sticks(m, a.newParent, dst.value, a.context) && IsFullDirectory(m, dst.value)
  }

  ghost function MoveRefusal(m: Meta, a: RenameArgs, l: Locked): Option<ErrorCode> {
    if RenameAllowed(m, a, l.src, l.dst) then None
    else if l.src !in m.attrs || (l.dst.Some? && l.dst.value !in m.attrs) then Some(InodeDoesNotExist)
    else if OnlyFull(m, a, l.src, l.dst) then Some(NotEmpty)
    else Some(AccessDenied)
  }

  ghost function RenameRefusal(m: Meta, a: RenameArgs, pc: RenamePc): Option<ErrorCode> {
    match pc
    case FindSource(_, _) => FindRefusal(m, (a.parent, a.name), a.context)
    case FindTarget(_, _, _, _) => SearchRefusal(m, (a.newParent, a.newName), a.context)
    case ReadSource(l, _, _) => if l.dst.None? then MoveRefusal(m, a, l) else Absent(m, l.src)
    case ReadTarget(l, _, _, _) => MoveRefusal(m, a, l)
    case _ => None
  }

  /** Why the next step of a transaction is refused, by the tables it finds. */
  ghost function Refusal(m: Meta, t: Txn): Option<ErrorCode> {
    match t
    case CreateLinking(p, n, c, _, _, _) => AddRefusal(m, (p, n), c)
    case CreateUndo(i, _, _) => Absent(m, i)
    case HardlinkStart(i, _, _, _) => Absent(m, i)
    case HardlinkLinking(_, p, n, c, _, _) => AddRefusal(m, (p, n), c)
    case HardlinkUndo(i, _, _) => Absent(m, i)
    case UnlinkStart(p, n, c) => RemoveRefusal(m, (p, n), c, None)
    case RmdirStart(p, n, c) => FindRefusal(m, (p, n), c)
    case RemovalReading(job, _, _, _, i, _) =>
      if job == RemoveDir && IsFullDirectory(m, i) then Some(NotEmpty) else Absent(m, i)
    case RemovalTrying(_, p, n, c, i, _, _) => RemoveRefusal(m, (p, n), c, Some(i))
    case RmdirChecking(i) => Absent(m, i)
    case RemovalDropping(_, i) => Absent(m, i)
    case Renaming(a, pc) => RenameRefusal(m, a, pc)
    case _ => None
  }

  /** The error that a transaction is going to report. */
  function FailsWith(t: Txn): Option<ErrorCode> {
    match t
    case CreateUndo(_, _, e) => Some(e)
    case HardlinkUndo(_, _, e) => Some(e)
    case RemovalUnlocking(_, _, _, _, _, _, Give(e)) => Some(e)
    case Renaming(_, ReleaseAll(_, Failure(e))) => Some(e)
    case Finished(Failure(e)) => Some(e)
    case _ => None
  }

  function ErrorOf(o: Outcome): Option<ErrorCode> { if o.Err? then Some(o.error) else None }

  function Or(a: Option<ErrorCode>, b: Option<ErrorCode>): Option<ErrorCode> { if a.Some? then a else b }

  // ------------------------------------------------------------------ answers

  lemma AddAnswer(m: Meta, i: Inode, k: DirKey, c: UserContext, kind: FileKind, now: Timestamp)
    ensures ErrorOf(CreateLinkStep(m, i, k.0, k.1, c, kind, now).outcome) == AddRefusal(m, k, c)
  {
    hide Allows, Sticky;
  }

  /** A removal is complete exactly if the caller may change the entry, and need not be, or has been found
      to be, the owner of what it points at. */
  lemma RemoveAnswer(m: Meta, k: DirKey, known: Option<InodeUidPair>, c: UserContext, now: Timestamp)
    requires known.Some? ==> known.value.inode in m.attrs && m.attrs[known.value.inode].uid == known.value.uid
    ensures var step := RemoveLinkStep(m, k.0, k.1, known, c, now);
            var o := step.outcome;
            var found := if known.Some? then Some(known.value.inode) else None;
            && ErrorOf(o) == RemoveRefusal(m, k, c, found)
            && (o.Ok? ==>
                  && k in m.dir && o.response.RemovedInode? && o.response.id == m.dir[k].inode
                  && (o.response.complete ==> MayChange(m, k, c))
                  && (found == Some(m.dir[k].inode) ==> o.response.complete)
                  && (!o.response.complete ==> step.meta == m))
  {
    hide Allows, Sticky;
  }

  lemma LookupAnswer(m: Meta, p: Inode, n: Name, c: UserContext)
    ensures var o := LookupOutcome(m, p, n, c);
            && ErrorOf(o) == FindRefusal(m, (p, n), c)
            && (o.Ok? ==> (p, n) in m.dir && o == Ok(InodeId(m.dir[(p, n)].inode)))
  {
    hide Allows;
  }

  /** The last read of a rename leads on to its first write exactly if the rename is allowed. */
  lemma ChecksDecide(m: Meta, a: RenameArgs, pc: RenamePc, choice: Inode)
    requires (pc.ReadSource? && pc.l.dst.None?) || pc.ReadTarget?
    requires RenameKnows(m, a, pc)
    ensures RenameAction(a, pc, choice).ReadAttr?
    ensures var next := ResumeRename(a, pc, choice, GetAttributes(m, RenameAction(a, pc, choice).inode));
            && next.Go? && next.txn.Renaming? && next.txn.args == a
            && (next.txn.pc.AddLink? <==> RenameAllowed(m, a, pc.l.src, pc.l.dst))
            && (!next.txn.pc.AddLink? ==>
                  next.txn.pc == ReleaseAll(HeldBy(a, pc.l), Failure(MoveRefusal(m, a, pc.l).value)))
  {
    hide Allows, Sticky, DirectoryEntries;
    if pc.l.dst.Some? {
      EntriesCounted(m, pc.l.dst.value);
    }
  }

  // ------------------------------------------------------------------ steps

  predicate OnRow(t: Txn) {
    t.CreateStart? || t.CreateUndo? || t.HardlinkStart? || t.HardlinkUndo? || t.RemovalDropping?
  }

  /** A request on one row fails exactly if the row is gone. */
  lemma RowReply(s: Sys, t: Txn, now: Timestamp, newLock: LockId, choice: Inode)
    requires OnRow(t)
    ensures var o := ReplyTo(s, ActionOf(t, choice), now, newLock); o.Panicked? || ErrorOf(o) == Refusal(s.meta, t)
  {
    hide CommitOwner, CommitXattr, CommitLink, RenameAction, RenameRefusal, AddRefusal, RemoveRefusal, MetadataOf,
         DirectoryEntries, HasEntries;
  }

  lemma LinkReply(s: Sys, t: Txn, now: Timestamp, newLock: LockId, choice: Inode)
    requires (MakesEntry(t) || TakesEntry(t)) && Knows(s.meta, t)
    ensures ErrorOf(ReplyTo(s, ActionOf(t, choice), now, newLock)) == Refusal(s.meta, t)
  {
    hide CommitOwner, CommitAttr, CommitXattr, CommitInode, CreateLinkStep, RemoveLinkStep, RenameAction, RenameRefusal,
         AddRefusal, RemoveRefusal, HasEntries, FindRefusal;
    match t
    case CreateLinking(p, n, c, k, i, _) => AddAnswer(s.meta, i, (p, n), c, k, now);
    case HardlinkLinking(i, p, n, c, k, _) => AddAnswer(s.meta, i, (p, n), c, k, now);
    case UnlinkStart(p, n, c) => RemoveAnswer(s.meta, (p, n), None, c, now);
    case RemovalTrying(_, p, n, c, i, _, u) => RemoveAnswer(s.meta, (p, n), Some(InodeUidPair(i, u)), c, now);
  }

  /** What a transaction is going to report after a step: its refusal, if there is one. */
  ghost predicate Learns(m: Meta, t: Txn, next: Next) {
    next.Go? ==> FailsWith(next.txn) == Or(Refusal(m, t), FailsWith(t))
  }

  lemma ReplyFails(s: Sys, t: Txn, now: Timestamp, newLock: LockId, choice: Inode)
    requires !t.Renaming? && Knows(s.meta, t)
    ensures Learns(s.meta, t, Resume(t, choice, ReplyTo(s, ActionOf(t, choice), now, newLock)))
  {
    hide Execute, ResumeRename, RenameRefusal, AddRefusal, RemoveRefusal, FindRefusal, RenameAction, LookupOutcome,
         DirectoryEntries, HasEntries, ReplyTo;
    if OnRow(t) {
      RowReply(s, t, now, newLock, choice);
    } else if MakesEntry(t) || TakesEntry(t) {
      LinkReply(s, t, now, newLock, choice);
    } else {
      ReadReply(s, t, now, newLock, choice);
    }
  }

  lemma ReadReply(s: Sys, t: Txn, now: Timestamp, newLock: LockId, choice: Inode)
    requires !t.Renaming? && !OnRow(t) && !MakesEntry(t) && !TakesEntry(t)
    ensures Learns(s.meta, t, Resume(t, choice, ReplyTo(s, ActionOf(t, choice), now, newLock)))
  {
    hide Execute, ResumeRename, RenameRefusal, AddRefusal, RemoveRefusal, FindRefusal, RenameAction, LookupOutcome,
         DirectoryEntries, HasEntries;
    match t
    case RmdirStart(p, n, c) => LookupAnswer(s.meta, p, n, c);
    case RemovalReading(_, _, _, _, i, _) => EntriesCounted(s.meta, i);
    case _ =>
  }

  lemma RenameFindReply(m: Meta, a: RenameArgs, pc: RenamePc, choice: Inode)
    ensures pc.FindSource? ==>
              Learns(m, Renaming(a, pc), ResumeRename(a, pc, choice, LookupOutcome(m, a.parent, a.name, a.context)))
    ensures pc.FindTarget? ==>
              Learns(m, Renaming(a, pc),
                     ResumeRename(a, pc, choice, LookupOutcome(m, a.newParent, a.newName, a.context)))
  {
    hide Allows, AddRefusal, RemoveRefusal, MoveRefusal, LookupOutcome, HasEntries, RenameDenied, HeldInRename;
    LookupAnswer(m, a.parent, a.name, a.context);
    LookupAnswer(m, a.newParent, a.newName, a.context);
  }

  lemma RenameReadReply(m: Meta, a: RenameArgs, pc: RenamePc, choice: Inode)
    requires (pc.ReadParent? || pc.ReadNewParent? || pc.ReadSource? || pc.ReadTarget?) && RenameKnows(m, a, pc)
    ensures RenameAction(a, pc, choice).ReadAttr?
    ensures Learns(m, Renaming(a, pc),
                   ResumeRename(a, pc, choice, GetAttributes(m, RenameAction(a, pc, choice).inode)))
  {
    hide Allows, Sticky, DirectoryEntries, AddRefusal, RemoveRefusal, RenameAllowed, OnlyFull, LookupOutcome,
         HasEntries, RenameDenied, HeldInRename;
    if (pc.ReadSource? && pc.l.dst.None?) || pc.ReadTarget? {
      ChecksDecide(m, a, pc, choice);
    }
  }

  lemma RenameReply(s: Sys, t: nat, now: Timestamp, newLock: LockId, choice: Inode)
    requires Inv(s) && t in s.txns && Now(s, t).Renaming?
    ensures Learns(s.meta, Now(s, t), Resume(Now(s, t), choice, ReplyTo(s, ActionOf(Now(s, t), choice), now, newLock)))
  {
    hide Inv, RenameKnows, Learns, CommitMeta, GetAttributes, LookupOutcome;
    TxnIs(s, t);
    var a, pc := s.txns[t].args, s.txns[t].pc;
    if Writing(s.txns[t]) {
      WriteSucceeds(s, t, now, choice);
      assert TablesFor(s, RenameAction(a, pc, choice).request) == s.meta;
      WriteLearns(s.meta, a, pc, choice, CommitMeta(s.meta, RenameAction(a, pc, choice).request, now).outcome);
    } else if pc.LockParent? || pc.LockNewParent? || pc.LockSource? || pc.LockTarget? || pc.ReleaseAll? {
      LockLearns(s.meta, a, pc, choice, ReplyTo(s, RenameAction(a, pc, choice), now, newLock));
    } else if pc.FindSource? || pc.FindTarget? {
      RenameFindReply(s.meta, a, pc, choice);
    } else {
      RenameReadReply(s.meta, a, pc, choice);
    }
  }

  lemma WriteLearns(m: Meta, a: RenameArgs, pc: RenamePc, choice: Inode, o: Outcome)
    requires Writing(Renaming(a, pc)) && !o.Err?
    ensures Learns(m, Renaming(a, pc), ResumeRename(a, pc, choice, o))
  {
    hide AddRefusal, RemoveRefusal, FindRefusal, HasEntries;
  }

  lemma LockLearns(m: Meta, a: RenameArgs, pc: RenamePc, choice: Inode, o: Outcome)
    requires pc.LockParent? || pc.LockNewParent? || pc.LockSource? || pc.LockTarget? || pc.ReleaseAll?
    requires !o.Err?
    ensures Learns(m, Renaming(a, pc), ResumeRename(a, pc, choice, o))
  {
    hide AddRefusal, RemoveRefusal, FindRefusal, HasEntries;
  }

  /** After each of its steps that does not stop the run, a transaction is going to report the step's
      refusal, or else what it was going to report before. */
  lemma StepRefused(s: Sys, t: nat, now: Timestamp, newLock: LockId, choice: Inode)
    requires Inv(s) && t in s.txns && Enabled(s, TxnStep(t, now, newLock, choice))
    requires Apply(s, TxnStep(t, now, newLock, choice)).crash.None?
    ensures t in Apply(s, TxnStep(t, now, newLock, choice)).txns
    ensures FailsWith(Now(Apply(s, TxnStep(t, now, newLock, choice)), t))
         == Or(Refusal(s.meta, Now(s, t)), FailsWith(Now(s, t)))
  {
    hide Inv, Enabled, Apply, Knows, OwedOk, Resume, ActionOf, ReplyTo, Refusal, FailsWith, Execute;
    StepForm(s, TxnStep(t, now, newLock, choice));
    TxnIs(s, t);
    if s.txns[t].Renaming? {
      RenameReply(s, t, now, newLock, choice);
    } else {
      ReplyFails(s, s.txns[t], now, newLock, choice);
    }
  }

  // ------------------------------------------------------------------ runs

  /** The refusal that transaction t has got last in a run, or else e. */
  ghost function Refused(s: Sys, labels: seq<Label>, t: nat, e: Option<ErrorCode>): Option<ErrorCode>
    decreases |labels|
  {
    if labels == [] then e
    else
      var s' := Apply(s, labels[0]);
      Refused(s', labels[1..], t,
              if labels[0].TxnStep? && labels[0].t == t && s'.crash.None? then Or(Refusal(s.meta, Now(s, t)), e) else e)
  }

  /** Over any run, a transaction is going to report exactly its last refusal. */
  lemma {:induction false} ReportsRefusals(s: Sys, labels: seq<Label>, t: nat)
    requires Inv(s) && ValidRun(s, labels) && t in s.txns
    ensures t in Run(s, labels).txns
    ensures FailsWith(Now(Run(s, labels), t)) == Refused(s, labels, t, FailsWith(Now(s, t)))
    decreases |labels|
  {
    hide Inv, Enabled, Apply, Refusal, FailsWith;
    if labels != [] {
      var l, s' := labels[0], Apply(s, labels[0]);
      StepKeepsInv(s, l);
      if l.TxnStep? && l.t == t {
        if s'.crash.None? {
          StepRefused(s, t, l.now, l.newLock, l.choice);
        } else {
          StepForm(s, l);
        }
      } else {
        OtherStep(s, l, t);
      }
      ReportsRefusals(s', labels[1..], t);
    }
  }

  /** In every run: a transaction that is done has succeeded if no step of it was refused, and else has
      reported the last refusal; and each refusal is told by the tables that the step has found. */
  lemma ErrorsAreTrue(start: Sys, before: seq<Label>, labels: seq<Label>, t: nat)
    requires Initial(start) && ValidRun(start, before) && ValidRun(Run(start, before), labels)
    requires var s := Run(start, before); t in s.txns && IsStart(Now(s, t))
    requires Now(Run(Run(start, before), labels), t).Finished?
    ensures var end := Run(Run(start, before), labels);
            Now(end, t) == Finished(match Refused(Run(start, before), labels, t, None)
                                    case Some(e) => Failure(e)
                                    case None => Success)
  {
    hide Initial, ValidRun, Run, Inv, Refused;
    ReachableInv(start, before);
    ReportsRefusals(Run(start, before), labels, t);
  }

  // ------------------------------------------------------------------ rename

  predicate LastRead(pc: RenamePc) { (pc.ReadSource? && pc.l.dst.None?) || pc.ReadTarget? }

  /** In every run, the last read of a rename changes nothing, and leads on to its first write if and only if
      the tables then allow the rename; otherwise the rename is going to report what forbids it. */
  lemma RenameGoesAheadIff(start: Sys, labels: seq<Label>, t: nat, a: RenameArgs, pc: RenamePc, l: Label)
    requires Initial(start) && ValidRun(start, labels) && InRename(Run(start, labels), t, a, pc) && LastRead(pc)
    requires l.TxnStep? && l.t == t && Enabled(Run(start, labels), l)
    ensures var s, s' := Run(start, labels), Apply(Run(start, labels), l);
            && s'.crash.None? && s'.meta == s.meta && t in s'.txns && s'.txns[t].Renaming? && s'.txns[t].args == a
            && (s'.txns[t].pc.AddLink? <==> RenameAllowed(s.meta, a, pc.l.src, pc.l.dst))
            && (!s'.txns[t].pc.AddLink? ==>
                  s'.txns[t].pc == ReleaseAll(HeldBy(a, pc.l), Failure(MoveRefusal(s.meta, a, pc.l).value)))
  {
    hide Initial, ValidRun, Run, Inv, RenameKnows, ResumeRename, RenameAllowed, MoveRefusal, HeldBy, GetAttributes,
         ProposeStep, KernelValidated;
    ReachableInv(start, labels);
    TxnIs(Run(start, labels), t);
    ChecksDecide(Run(start, labels).meta, a, pc, l.choice);
  }

  // ------------------------------------------------------------------ entries

  /** The entry that a transaction is about to add or remove. */
  function KeyOf(t: Txn): DirKey {
    if MakesEntry(t) || TakesEntry(t) then (t.parent, t.name) else (0, "")
  }

  function CallerOf(t: Txn): UserContext {
    if MakesEntry(t) || TakesEntry(t) then t.context else UserContext(0, 0)
  }

  predicate MaySearch(m: Meta, k: DirKey, c: UserContext) { k.0 in m.attrs && Allows(m.attrs[k.0], c, X_OK) }

  /** In every run, access to an entry is denied only to a caller who may not change it, or who may not search
      the directory to add one; and one who may is never given an error: what is there can be removed,
      and what is not can be added. */
  lemma DeniedOnlyIfForbidden(start: Sys, labels: seq<Label>, t: nat, now: Timestamp, newLock: LockId, choice: Inode)
    requires Initial(start) && ValidRun(start, labels) && t in Run(start, labels).txns
    requires var txn := Now(Run(start, labels), t); MakesEntry(txn) || TakesEntry(txn)
    ensures var s := Run(start, labels);
            var txn := Now(s, t); var k, c := KeyOf(txn), CallerOf(txn);
            var o := ReplyTo(s, ActionOf(txn, choice), now, newLock);
            && (o == Err(AccessDenied) ==> !MayChange(s.meta, k, c) || (MakesEntry(txn) && !MaySearch(s.meta, k, c)))
            && (MayChange(s.meta, k, c) && (TakesEntry(txn) <==> k in s.meta.dir) ==> !o.Err?)
  {
    hide Initial, ValidRun, Run, Inv, ReplyTo, Knows;
    ReachableInv(start, labels);
    var s := Run(start, labels);
    TxnIs(s, t);
    LinkReply(s, s.txns[t], now, newLock, choice);
  }

  /** Who may write to a directory but not search it is denied to create a name that is there already,
      although it might remove or replace it. */
  lemma SearchComesFirst(now: Timestamp) returns (m: Meta, k: DirKey, c: UserContext)
    ensures CreateLinkStep(m, 3, k.0, k.1, c, File, now).outcome == Err(AccessDenied) && MayChange(m, k, c)
  {
    k, c := (2, "x"), UserContext(1, 1);
    m := InitialMeta(4, 1, now);
    m := m.(attrs := m.attrs[2 := Attr(0, now, now, now, Directory, 0x92, 2, 0, 0)], dir := map[k := Link(3, File)]);
  }

  // ------------------------------------------------------------------ rmdir

  /** In every run, a directory whose entry an rmdir removes has no entries at that step. */
  lemma RemovedDirectoryIsEmpty(start: Sys, labels: seq<Label>, l: Label, k: DirKey)
    requires Initial(start) && ValidRun(start, labels) && Enabled(Run(start, labels), l)
    requires l.TxnStep? && Now(Run(start, labels), l.t).RemovalTrying? && Now(Run(start, labels), l.t).job == RemoveDir
    requires EntryChanged(Run(start, labels).meta, Apply(Run(start, labels), l).meta, k)
    ensures var m := Run(start, labels).meta; k in m.dir && !IsFullDirectory(m, m.dir[k].inode)
  {
    hide Initial, ValidRun, Run, Inv, HasEntries, RemoveLinkStep, CreateLinkStep, ReplaceLinkStep, CommitMeta, Apply;
    ReachableInv(start, labels);
    var s := Run(start, labels);
    TxnIs(s, l.t);
    OnlyLinkStepsChangeEntries(s, l.t, l.now, l.newLock, l.choice, k);
    var txn := s.txns[l.t];
    TakenIsKnown(s.meta, (txn.parent, txn.name), InodeUidPair(txn.inode, txn.ownerUid), txn.context, l.now, k);
  }

  lemma TakenIsKnown(m: Meta, k: DirKey, known: InodeUidPair, c: UserContext, now: Timestamp, j: DirKey)
    requires EntryChanged(m, RemoveLinkStep(m, k.0, k.1, Some(known), c, now).meta, j)
    ensures j == k && k in m.dir && m.dir[k].inode == known.inode
  {
    hide Allows, Sticky;
  }

  /** The transaction has been given up with error e. */
  predicate GivenUp(t: Txn, e: ErrorCode) {
    (t.RemovalUnlocking? && t.cont == Give(e)) || t == Finished(Failure(e))
  }

  lemma {:induction false} StaysGivenUp(s: Sys, labels: seq<Label>, t: nat, e: ErrorCode)
    requires Inv(s) && ValidRun(s, labels) && t in s.txns && GivenUp(Now(s, t), e)
    ensures t in Run(s, labels).txns && GivenUp(Now(Run(s, labels), t), e)
    decreases |labels|
  {
    hide Inv, Enabled, Apply;
    if labels != [] {
      var l, s' := labels[0], Apply(s, labels[0]);
      StepKeepsInv(s, l);
      if l.TxnStep? && l.t == t {
        StepForm(s, l);
      } else {
        OtherStep(s, l, t);
      }
      StaysGivenUp(s', labels[1..], t, e);
    }
  }

  /** An rmdir that reads a directory with entries ends with NotEmpty, whatever happens then. */
  lemma FullDirectoryIsRefused(s: Sys, l: Label, labels: seq<Label>)
    requires Inv(s) && Enabled(s, l) && l.TxnStep? && ValidRun(Apply(s, l), labels)
    requires var t := Now(s, l.t); t.RemovalReading? && t.job == RemoveDir && IsFullDirectory(s.meta, t.inode)
    requires Now(Run(Apply(s, l), labels), l.t).Finished?
    ensures Now(Run(Apply(s, l), labels), l.t) == Finished(Failure(NotEmpty))
  {
    hide Inv, Run, ValidRun, Apply, HasEntries, DirectoryEntries;
    StepKeepsInv(s, l);
    StepForm(s, l);
    EntriesCounted(s.meta, s.txns[l.t].inode);
    StaysGivenUp(Apply(s, l), labels, l.t, NotEmpty);
  }

  /** An rmdir has removed the entry of i, and holds its lock, or has released it since. */
  predicate HasTaken(t: Txn, i: Inode) {
    || (t.RemovalUnlocking? && t.job == RemoveDir && t.cont == Drop(i))
    || t == RmdirChecking(i) || t == RemovalDropping(RemoveDir, i) || t.Finished?
  }

  /** In the course of the run, while transaction t holds no lock, i gets a first entry. */
  ghost predicate GetsEntry(s: Sys, labels: seq<Label>, t: nat, i: Inode)
    decreases |labels|
  {
    labels != [] && var s' := Apply(s, labels[0]);
    || (!HasEntries(s.meta, i) && HasEntries(s'.meta, i) && t in s.txns && Held(s.txns[t]) == map[])
    || GetsEntry(s', labels[1..], t, i)
  }

  ghost predicate HoldsDirectory(s: Sys, t: nat, i: Inode) {
    Now(s, t).RemovalUnlocking? ==> i in s.meta.attrs && s.meta.attrs[i].kind == Directory
  }

  /** As long as an rmdir holds the lock of the directory it has taken out, no entry gets in there. */
  lemma LockedStaysEmpty(s: Sys, l: Label, t: nat, i: Inode)
    requires Inv(s) && Enabled(s, l) && t in s.txns && HasTaken(Now(s, t), i) && HoldsDirectory(s, t, i)
    ensures var s' := Apply(s, l);
            && Inv(s') && t in s'.txns && HasTaken(Now(s', t), i) && HoldsDirectory(s', t, i)
            && (Now(s, t).RemovalUnlocking? ==> s'.meta == s.meta || !HasEntries(s'.meta, i))
  {
    hide Inv, Enabled, Apply, HasEntries, Execute;
    var s' := Apply(s, l);
    StepKeepsInv(s, l);
    if l.TxnStep? && l.t == t {
      StepForm(s, l);
    } else {
      OtherStep(s, l, t);
      if s.txns[t].RemovalUnlocking? {
        TxnIs(s', t);
        assert FreshOk(s) by { FreshOf(s); }
        StepKeepsKinds(s, l, i);
      }
    }
  }

  /** A directory that an rmdir has taken out gets entries only after the rmdir has released its lock. */
  lemma {:induction false} EntriesComeLate(s: Sys, labels: seq<Label>, t: nat, i: Inode)
    requires Inv(s) && ValidRun(s, labels) && t in s.txns && HasTaken(Now(s, t), i) && HoldsDirectory(s, t, i)
    requires !HasEntries(s.meta, i) && HasEntries(Run(s, labels).meta, i)
    ensures GetsEntry(s, labels, t, i)
    decreases |labels|
  {
    hide Inv, Enabled, Apply, HasEntries, HoldsDirectory;
    if labels != [] {
      LockedStaysEmpty(s, labels[0], t, i);
      if !HasEntries(Apply(s, labels[0]).meta, i) {
        EntriesComeLate(Apply(s, labels[0]), labels[1..], t, i);
      }
    }
  }

  /** In every run: if rmdir's decrement finds entries in the directory whose entry it has removed, one was
      added after it released the directory's lock. */
  lemma NonEmptyStopComesLate(start: Sys, before: seq<Label>, labels: seq<Label>, t: nat, i: Inode)
    requires Initial(start) && ValidRun(start, before) && ValidRun(Run(start, before), labels)
    requires var s := Run(start, before);
             && t in s.txns && Now(s, t).RemovalUnlocking? && Now(s, t).job == RemoveDir && Now(s, t).cont == Drop(i)
             && i in s.meta.attrs && s.meta.attrs[i].kind == Directory
    requires IsFullDirectory(Run(Run(start, before), labels).meta, i)
    ensures !HasEntries(Run(start, before).meta, i) && GetsEntry(Run(start, before), labels, t, i)
  {
    hide Initial, ValidRun, Run, Inv, HasEntries, GetsEntry;
    ReachableInv(start, before);
    TxnIs(Run(start, before), t);
    EntriesComeLate(Run(start, before), labels, t, i);
  }

  // ------------------------------------------------------------------ create

  /** The inode that a create makes is a new one, with the owner, group, kind and mode asked for, without
      the set-id bits; a file is empty, and a directory points at the parent asked for. */
  lemma CreateMakesInode(s: Sys, l: Label)
    requires Inv(s) && Enabled(s, l) && l.TxnStep? && Now(s, l.t).CreateStart?
    ensures var s', t := Apply(s, l), Now(s, l.t);
            && t.group in s.next && var i := s.next[t.group];
            && i !in s.meta.attrs && i in s'.meta.attrs && s'.meta.attrs == s.meta.attrs[i := s'.meta.attrs[i]]
            && var a := s'.meta.attrs[i];
            && a.uid == t.uid && a.gid == t.gid && a.kind == t.kind && a.mode == WithoutSetId(t.mode)
            && a.hardlinks == LinksAtBirth(t.kind) && a.size == (if t.kind == Directory then BLOCK_SIZE else 0)
            && s'.meta.parents == (if t.kind == Directory then s.meta.parents[i := t.parent] else s.meta.parents)
            && l.t in s'.txns
            && s'.txns[l.t]
               == CreateLinking(t.parent, t.name, UserContext(t.uid, t.gid), t.kind, i, LinksAtBirth(t.kind))
  {
    hide LocksOk, LedgerOk, TxnsOk, EntriesOk, SpoiledOk, WithoutSetId, CommitOwner, CommitAttr, CommitXattr,
         CommitLink, ResumeRemoval, ResumeRename, RenameAction, SpoiledAfter;
  }
}
