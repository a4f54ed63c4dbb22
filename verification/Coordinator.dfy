/** The transaction coordinator: create, hardlink, unlink, rmdir and rename as step programs.

    A coordinator is a state between two of its actions.  `ActionOf` is what it does next: propose
    a request to the group of some inode, or read.  `Resume` is the state it continues in once it
    has the reply. */
module Coordinator {
  import opened Types
  import opened Access
  import opened Metadata

  datatype Result = Success | Failure(error: ErrorCode)

  /** Which of the two removal loops a state belongs to. */
  datatype Job = UnlinkFile | RemoveDir

  /** What a removal does once it has unlocked its inode. */
  datatype Cont = Again(inode: Inode) | Drop(inode: Inode) | Give(error: ErrorCode)

  datatype RenameArgs = RenameArgs(parent: Inode, name: Name, newParent: Inode, newName: Name, context: UserContext)

  /** The locks of a rename that has found its inodes. */
  datatype Locked = Locked(parentLock: LockId, newParentLock: LockId, src: Inode, srcLock: LockId,
                           dst: Option<Inode>, dstLock: LockId)

  datatype RenamePc =
    | LockParent
    | LockNewParent(parentLock: LockId)
    | FindSource(parentLock: LockId, newParentLock: LockId)
    | LockSource(parentLock: LockId, newParentLock: LockId, src: Inode)
    | FindTarget(parentLock: LockId, newParentLock: LockId, src: Inode, srcLock: LockId)
    | LockTarget(parentLock: LockId, newParentLock: LockId, src: Inode, srcLock: LockId, dst: Inode)
    | ReadParent(l: Locked)
    | ReadNewParent(l: Locked, pa: EntryMetadata)
    | ReadSource(l: Locked, pa: EntryMetadata, npa: EntryMetadata)
    | ReadTarget(l: Locked, pa: EntryMetadata, npa: EntryMetadata, sa: EntryMetadata)
    | AddLink(l: Locked, sa: EntryMetadata, da: Option<EntryMetadata>)
    | DropTarget(l: Locked, sa: EntryMetadata, da: Option<EntryMetadata>)
    | RemoveOld(l: Locked, sa: EntryMetadata, da: Option<EntryMetadata>)
    | Reparent(l: Locked, sa: EntryMetadata, da: Option<EntryMetadata>)
    | Touch(l: Locked, sa: EntryMetadata, da: Option<EntryMetadata>)
    | ReleaseAll(guard: map<Inode, LockId>, result: Result)

  datatype Txn =
    | CreateStart(group: nat, parent: Inode, name: Name, uid: nat, gid: nat, mode: bv16, kind: FileKind)
    | CreateLinking(parent: Inode, name: Name, context: UserContext, kind: FileKind, inode: Inode, links: nat)
    | CreateUndo(inode: Inode, links: nat, error: ErrorCode)
    | HardlinkStart(inode: Inode, parent: Inode, name: Name, context: UserContext)
    | HardlinkLinking(inode: Inode, parent: Inode, name: Name, context: UserContext, kind: FileKind,
                      undoTime: Timestamp)
    | HardlinkUndo(inode: Inode, undoTime: Timestamp, error: ErrorCode)
    | UnlinkStart(parent: Inode, name: Name, context: UserContext)
    | RmdirStart(parent: Inode, name: Name, context: UserContext)
    | RemovalLocking(job: Job, parent: Inode, name: Name, context: UserContext, inode: Inode)
    | RemovalReading(job: Job, parent: Inode, name: Name, context: UserContext, inode: Inode, lock: LockId)
    | RemovalTrying(job: Job, parent: Inode, name: Name, context: UserContext, inode: Inode, lock: LockId,
                    ownerUid: nat)
    | RemovalUnlocking(job: Job, parent: Inode, name: Name, context: UserContext, inode: Inode, lock: LockId,
                       cont: Cont)
    | RmdirChecking(inode: Inode)
    | RemovalDropping(job: Job, inode: Inode)
    | Renaming(args: RenameArgs, pc: RenamePc)
    | Finished(result: Result)

  /** The states in which a client's request starts. */
  predicate IsStart(t: Txn) {
    t.CreateStart? || t.HardlinkStart? || t.UnlinkStart? || t.RmdirStart? || (t.Renaming? && t.pc.LockParent?)
  }

  // ------------------------------------------------------------------ locks held

  function HeldBy(args: RenameArgs, l: Locked): map<Inode, LockId> {
    var held := map[args.parent := l.parentLock, args.newParent := l.newParentLock, l.src := l.srcLock];
    if l.dst.Some? then held[l.dst.value := l.dstLock] else held
  }

  function HeldInRename(args: RenameArgs, pc: RenamePc): map<Inode, LockId> {
    if pc.LockParent? then map[]
    else if pc.LockNewParent? then map[args.parent := pc.parentLock]
    else if pc.FindSource? || pc.LockSource? then map[args.parent := pc.parentLock, args.newParent := pc.newParentLock]
    else if pc.FindTarget? || pc.LockTarget? then
      map[args.parent := pc.parentLock, args.newParent := pc.newParentLock, pc.src := pc.srcLock]
    else if pc.ReleaseAll? then pc.guard
    else HeldBy(args, pc.l)
  }

  /** The locks a transaction has been granted and not yet released. */
  function Held(t: Txn): map<Inode, LockId> {
    match t
    case RemovalReading(_, _, _, _, i, l) => map[i := l]
    case RemovalTrying(_, _, _, _, i, l, _) => map[i := l]
    case RemovalUnlocking(_, _, _, _, i, l, _) => map[i := l]
    case Renaming(args, pc) => HeldInRename(args, pc)
    case _ => map[]
  }

  // ------------------------------------------------------------------ references in flight

  /** The inode whose link count includes one link this transaction still has to create, or has
      removed and still has to give back. */
  function Plus(t: Txn): Option<Inode> {
    match t
    case CreateLinking(_, _, _, _, i, _) => Some(i)
    case CreateUndo(i, _, _) => Some(i)
    case HardlinkLinking(i, _, _, _, _, _) => Some(i)
    case HardlinkUndo(i, _, _) => Some(i)
    case RemovalUnlocking(_, _, _, _, _, _, Drop(i)) => Some(i)
    case RmdirChecking(i) => Some(i)
    case RemovalDropping(_, i) => Some(i)
    case Renaming(_, DropTarget(l, _, _)) => l.dst
    case _ => None
  }

  /** The inode that has one entry more than its count says: a rename has added the new link and
      not yet removed the old one. */
  function Minus(t: Txn): Option<Inode> {
    match t
    case Renaming(_, DropTarget(l, _, _)) => Some(l.src)
    case Renaming(_, RemoveOld(l, _, _)) => Some(l.src)
    case _ => None
  }

  // ------------------------------------------------------------------ access checks of a rename

  /** Whether the sticky bit of a directory forbids the caller to take out an entry. */
  predicate StickyForbids(dir: Attr, targetUid: nat, context: UserContext) {
    Sticky(dir) && context.uid != 0 && context.uid != dir.uid && context.uid != targetUid
  }

  function RenameDenied(pa: EntryMetadata, npa: EntryMetadata, sa: EntryMetadata, da: Option<EntryMetadata>,
                        context: UserContext): (denied: Option<ErrorCode>) {
    if !Allows(pa.attr, context, W_OK) || StickyForbids(pa.attr, sa.attr.uid, context) then Some(AccessDenied)
    else if !Allows(npa.attr, context, W_OK) then Some(AccessDenied)
    else if da.Some? && StickyForbids(npa.attr, da.value.attr.uid, context) then Some(AccessDenied)
    else if da.Some? && da.value.attr.kind == Directory && da.value.directoryEntries.Some?
            && da.value.directoryEntries.value > 0 then Some(NotEmpty)
    else if sa.attr.kind == Directory && pa.inode != npa.inode && !Allows(sa.attr, context, W_OK) then
      Some(AccessDenied)
    else None
  }

  // ------------------------------------------------------------------ actions

  datatype Action =
    | Propose(request: Request)
    | ReadAttr(inode: Inode)
    | ReadEntry(parent: Inode, name: Name, context: UserContext)
    | Stop

  function RenameAction(a: RenameArgs, pc: RenamePc, choice: Inode): Action {
    match pc
    case LockParent => Propose(Lock(a.parent))
    case LockNewParent(_) => Propose(Lock(a.newParent))
    case FindSource(_, _) => ReadEntry(a.parent, a.name, a.context)
    case LockSource(_, _, src) => Propose(Lock(src))
    case FindTarget(_, _, _, _) => ReadEntry(a.newParent, a.newName, a.context)
    case LockTarget(_, _, _, _, dst) => Propose(Lock(dst))
    case ReadParent(_) => ReadAttr(a.parent)
    case ReadNewParent(_, _) => ReadAttr(a.newParent)
    case ReadSource(l, _, _) => ReadAttr(l.src)
    case ReadTarget(l, _, _, _) => if l.dst.Some? then ReadAttr(l.dst.value) else Stop
    case AddLink(l, sa, _) =>
      if l.dst.Some? then
        Propose(ReplaceLink(a.newParent, a.newName, l.src, sa.attr.kind, Some(l.newParentLock), a.context))
      else
        Propose(CreateLink(a.newParent, a.newName, l.src, sa.attr.kind, Some(l.newParentLock), a.context))
    case DropTarget(l, _, da) =>
      if l.dst.Some? && da.Some? then
        Propose(DecrementInode(l.dst.value, if da.value.attr.kind == Directory then 2 else 1, Some(l.dstLock)))
      else Stop
    case RemoveOld(l, sa, _) =>
      Propose(RemoveLink(a.parent, a.name, Some(InodeUidPair(l.src, sa.attr.uid)), Some(l.parentLock), a.context))
    case Reparent(l, _, _) => Propose(UpdateParent(l.src, a.newParent, Some(l.srcLock)))
    case Touch(l, _, _) => Propose(UpdateMetadataChangedTime(l.src, Some(l.srcLock)))
    case ReleaseAll(guard, _) => if choice in guard then Propose(Unlock(choice, guard[choice])) else Stop
  }

  /** The next action; `choice` resolves the order in which a rename drains its set of locks. */
  function ActionOf(t: Txn, choice: Inode): Action {
    match t
    case CreateStart(g, p, _, u, gid, mode, k) => Propose(CreateInode(g, p, u, gid, mode, k))
    case CreateLinking(p, n, c, k, i, _) => Propose(CreateLink(p, n, i, k, None, c))
    case CreateUndo(i, links, _) => Propose(DecrementInode(i, links, None))
    case HardlinkStart(i, _, _, _) => Propose(HardlinkIncrement(i))
    case HardlinkLinking(i, p, n, c, k, _) => Propose(CreateLink(p, n, i, k, None, c))
    case HardlinkUndo(i, undo, _) => Propose(HardlinkRollback(i, undo))
    case UnlinkStart(p, n, c) => Propose(RemoveLink(p, n, None, None, c))
    case RmdirStart(p, n, c) => ReadEntry(p, n, c)
    case RemovalLocking(_, _, _, _, i) => Propose(Lock(i))
    case RemovalReading(_, _, _, _, i, _) => ReadAttr(i)
    case RemovalTrying(_, p, n, c, i, _, u) => Propose(RemoveLink(p, n, Some(InodeUidPair(i, u)), None, c))
    case RemovalUnlocking(_, _, _, _, i, l, _) => Propose(Unlock(i, l))
    case RmdirChecking(i) => ReadAttr(i)
    case RemovalDropping(job, i) => Propose(DecrementInode(i, if job == RemoveDir then 2 else 1, None))
    case Renaming(a, pc) => RenameAction(a, pc, choice)
    case Finished(_) => Stop
  }

  // ------------------------------------------------------------------ replies

  /** The state after a reply, or the failed assertion or unwrap that kills the coordinator. */
  datatype Next = Go(txn: Txn) | Abort

  function Quit(a: RenameArgs, pc: RenamePc, e: ErrorCode): Next {
    Go(Renaming(a, ReleaseAll(HeldInRename(a, pc), Failure(e))))
  }

  function CheckAndLink(a: RenameArgs, l: Locked, pa: EntryMetadata, npa: EntryMetadata, sa: EntryMetadata,
                        da: Option<EntryMetadata>): Next {
    match RenameDenied(pa, npa, sa, da, a.context)
    case Some(e) => Go(Renaming(a, ReleaseAll(HeldBy(a, l), Failure(e))))
    case None => Go(Renaming(a, AddLink(l, sa, da)))
  }

  /** After the destination has been made to point at the source. */
  function AfterAddLink(a: RenameArgs, l: Locked, sa: EntryMetadata, da: Option<EntryMetadata>, r: Response): Next {
    if l.dst.None? then Go(Renaming(a, RemoveOld(l, sa, da)))
    else if !r.InodeId? || r.id != l.dst.value || da.None? then Abort
    else if da.value.attr.kind == Directory && da.value.attr.hardlinks != 2 then Abort
    else Go(Renaming(a, DropTarget(l, sa, da)))
  }

  /** A lock has been granted. */
  function AfterLock(a: RenameArgs, pc: RenamePc, id: LockId): Next
    requires pc.LockParent? || pc.LockNewParent? || pc.LockSource? || pc.LockTarget?
  {
    if pc.LockParent? then
      Go(Renaming(a, if a.parent != a.newParent then LockNewParent(id) else FindSource(id, id)))
    else if pc.LockNewParent? then Go(Renaming(a, FindSource(pc.parentLock, id)))
    else if pc.LockSource? then Go(Renaming(a, FindTarget(pc.parentLock, pc.newParentLock, pc.src, id)))
    else Go(Renaming(a, ReadParent(Locked(pc.parentLock, pc.newParentLock, pc.src, pc.srcLock, Some(pc.dst), id))))
  }

  /** Attributes have been read under the locks. */
  function AfterRead(a: RenameArgs, pc: RenamePc, md: EntryMetadata): Next
    requires pc.ReadParent? || pc.ReadNewParent? || pc.ReadSource? || pc.ReadTarget?
  {
    if pc.ReadParent? then Go(Renaming(a, ReadNewParent(pc.l, md)))
    else if pc.ReadNewParent? then Go(Renaming(a, ReadSource(pc.l, pc.pa, md)))
    else if pc.ReadTarget? then CheckAndLink(a, pc.l, pc.pa, pc.npa, pc.sa, Some(md))
    else if pc.l.dst.Some? then Go(Renaming(a, ReadTarget(pc.l, pc.pa, pc.npa, md)))
    else CheckAndLink(a, pc.l, pc.pa, pc.npa, md, None)
  }

  function ResumeRename(a: RenameArgs, pc: RenamePc, choice: Inode, o: Outcome): Next {
    if o.Panicked? then Abort
    else if o.Err? then
      if pc.FindTarget? && o.error == DoesNotExist then
        Go(Renaming(a, ReadParent(Locked(pc.parentLock, pc.newParentLock, pc.src, pc.srcLock, None, 0))))
      else if pc.DropTarget? || pc.ReleaseAll? then Abort
      else Quit(a, pc, o.error)
    else if pc.LockParent? || pc.LockNewParent? || pc.LockSource? || pc.LockTarget? then
      if o.response.LockGranted? then AfterLock(a, pc, o.response.lockId) else Abort
    else if pc.FindSource? then
      if o.response.InodeId? then Go(Renaming(a, LockSource(pc.parentLock, pc.newParentLock, o.response.id))) else Abort
    else if pc.FindTarget? then
      if o.response.InodeId? then
        Go(Renaming(a, LockTarget(pc.parentLock, pc.newParentLock, pc.src, pc.srcLock, o.response.id)))
      else Abort
    else if pc.ReadParent? || pc.ReadNewParent? || pc.ReadSource? || pc.ReadTarget? then
      if o.response.Entry? then AfterRead(a, pc, o.response.metadata) else Abort
    else if pc.AddLink? then AfterAddLink(a, pc.l, pc.sa, pc.da, o.response)
    else if pc.DropTarget? then Go(Renaming(a, RemoveOld(pc.l, pc.sa, pc.da)))
    else if pc.RemoveOld? && pc.sa.attr.kind == Directory then Go(Renaming(a, Reparent(pc.l, pc.sa, pc.da)))
    else if pc.RemoveOld? || pc.Reparent? then Go(Renaming(a, Touch(pc.l, pc.sa, pc.da)))
    else if pc.Touch? then Go(Renaming(a, ReleaseAll(HeldBy(a, pc.l), Success)))
    else if pc.guard - {choice} == map[] then Go(Finished(pc.result))
    else Go(Renaming(a, ReleaseAll(pc.guard - {choice}, pc.result)))
  }

  function AfterUnlock(t: Txn): Next
    requires t.RemovalUnlocking?
  {
    match t.cont
    case Again(i) => Go(RemovalLocking(t.job, t.parent, t.name, t.context, i))
    case Drop(i) => if t.job == RemoveDir then Go(RmdirChecking(i)) else Go(RemovalDropping(UnlinkFile, i))
    case Give(e) => Go(Finished(Failure(e)))
  }

  function ResumeRemoval(t: Txn, o: Outcome): Next
    requires t.RemovalLocking? || t.RemovalReading? || t.RemovalTrying? || t.RemovalUnlocking?
  {
    if t.RemovalLocking? then
      if o.Ok? && o.response.LockGranted? then
        Go(RemovalReading(t.job, t.parent, t.name, t.context, t.inode, o.response.lockId))
      else Abort
    else if t.RemovalUnlocking? then if o.Ok? then AfterUnlock(t) else Abort
    else if o.Err? then Go(RemovalUnlocking(t.job, t.parent, t.name, t.context, t.inode, t.lock, Give(o.error)))
    else if t.RemovalReading? then
      if !o.Ok? || !o.response.Entry? then Abort
      else
        var md := o.response.metadata;
        if t.job == RemoveDir && md.directoryEntries.Some? && md.directoryEntries.value > 0 then
          Go(RemovalUnlocking(t.job, t.parent, t.name, t.context, t.inode, t.lock, Give(NotEmpty)))
        else Go(RemovalTrying(t.job, t.parent, t.name, t.context, t.inode, t.lock, md.attr.uid))
    else if !o.Ok? || !o.response.RemovedInode? then Abort
    else
      var cont := if o.response.complete then Drop(o.response.id) else Again(o.response.id);
      Go(RemovalUnlocking(t.job, t.parent, t.name, t.context, t.inode, t.lock, cont))
  }

  function Conclude(o: Outcome, success: Result): Next {
    match o
    case Ok(_) => Go(Finished(success))
    case Err(e) => Go(Finished(Failure(e)))
    case Panicked(_) => Abort
  }

  /** An error ends the transaction; an answer of another kind than expected fails an unwrap. */
  function GiveUp(o: Outcome): Next {
    if o.Err? then Go(Finished(Failure(o.error))) else Abort
  }

  function Resume(t: Txn, choice: Inode, o: Outcome): Next {
    if t.Renaming? then ResumeRename(t.args, t.pc, choice, o)
    else if t.RemovalLocking? || t.RemovalReading? || t.RemovalTrying? || t.RemovalUnlocking? then ResumeRemoval(t, o)
    else if t.CreateUndo? || t.HardlinkUndo? then Conclude(o, Failure(t.error))
    else if t.RemovalDropping? then Conclude(o, Success)
    else if t.CreateLinking? then
      if o.Err? then Go(CreateUndo(t.inode, t.links, o.error)) else Conclude(o, Success)
    else if t.HardlinkLinking? then
      if o.Err? then Go(HardlinkUndo(t.inode, t.undoTime, o.error)) else Conclude(o, Success)
    else if !o.Ok? then if t.Finished? then Abort else GiveUp(o)
    else if t.CreateStart? && o.response.Entry? then
      Go(CreateLinking(t.parent, t.name, UserContext(t.uid, t.gid), t.kind, o.response.metadata.inode,
                       o.response.metadata.attr.hardlinks))
    else if t.HardlinkStart? && o.response.HardlinkTransaction? then
      Go(HardlinkLinking(t.inode, t.parent, t.name, t.context, o.response.attrs.attr.kind,
                         o.response.rollbackLastModified))
    else if t.UnlinkStart? && o.response.RemovedInode? then
      if o.response.complete then Go(RemovalDropping(UnlinkFile, o.response.id))
      else Go(RemovalLocking(UnlinkFile, t.parent, t.name, t.context, o.response.id))
    else if t.RmdirStart? && o.response.InodeId? then
      Go(RemovalLocking(RemoveDir, t.parent, t.name, t.context, o.response.id))
    else if t.RmdirChecking? && o.response.Entry? && o.response.metadata.attr.hardlinks == 2 then
      Go(RemovalDropping(RemoveDir, t.inode))
    else Abort
  }
}
