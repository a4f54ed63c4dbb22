/** The metadata tables of one group and the effect of every write request on them.

    Each operation is one database transaction: it either commits all of its changes or none.
    The clock is an argument. */
module Metadata {
  import opened Striping
  import opened Types
  import opened Access

  type DirKey = (Inode, Name)
  type XattrKey = (Inode, string)

  datatype Link = Link(inode: Inode, kind: FileKind)

  datatype Meta = Meta(
    attrs: map<Inode, Attr>,
    dir: map<DirKey, Link>,
    parents: map<Inode, Inode>,
    xattrs: map<XattrKey, seq<Byte>>,
    nextInode: Inode,
    numGroups: nat)

  /** The tables of a new filesystem: the root directory, owned by root and writable by all. */
  function InitialMeta(startInode: Inode, numGroups: nat, now: Timestamp): Meta {
    Meta(map[ROOT_INODE := Attr(0, now, now, now, Directory, 0x1FF, 2, 0, 0)],
         map[], map[ROOT_INODE := ROOT_INODE], map[], startInode, numGroups)
  }

  /** The tables after a request, and its answer. */
  datatype Step = Step(meta: Meta, outcome: Outcome)

  const UTIME_NOW: int := 0x3fffffff

  // ------------------------------------------------------------------ reading

  datatype LookupResult = Found(inode: Option<Inode>) | LookupFailed(error: ErrorCode)

  function LookupEntry(m: Meta, parent: Inode, name: Name, context: UserContext): LookupResult {
    if |name| > MAX_NAME_LENGTH then LookupFailed(NameTooLong)
    else if parent !in m.attrs then LookupFailed(InodeDoesNotExist)
    else if !Allows(m.attrs[parent], context, X_OK) then LookupFailed(AccessDenied)
    else Found(if (parent, name) in m.dir then Some(m.dir[(parent, name)].inode) else None)
  }

  function EntriesOf(dir: map<DirKey, Link>, i: Inode): set<DirKey> {
    set k | k in dir && k.0 == i
  }

  function DirectoryEntries(m: Meta, i: Inode): nat {
    |EntriesOf(m.dir, i)|
  }

  function GetAttributes(m: Meta, i: Inode): Outcome {
    if i !in m.attrs then Err(InodeDoesNotExist) else Ok(Entry(MetadataOf(m, i)))
  }

  function MetadataOf(m: Meta, i: Inode): EntryMetadata
    requires i in m.attrs
  {
    EntryMetadata(i, m.attrs[i],
                  if m.attrs[i].kind == Directory then Some(DirectoryEntries(m, i)) else None)
  }

  // ------------------------------------------------------------------ attribute changes

  function Fail(m: Meta, e: ErrorCode): Step { Step(m, Err(e)) }

  function PutAttr(m: Meta, i: Inode, a: Attr): Meta { m.(attrs := m.attrs[i := a]) }

  function SetXattrStep(m: Meta, i: Inode, key: string, value: seq<Byte>, context: UserContext, now: Timestamp): Step {
    if i !in m.attrs then Fail(m, InodeDoesNotExist)
    else
      var denied, a := XattrDenied(key, W_OK, m.attrs[i], context), m.attrs[i].(lastMetadataChanged := now);
      if denied.Some? then Fail(m, denied.value)
      else Step(m.(attrs := m.attrs[i := a], xattrs := m.xattrs[(i, key) := value]), Ok(Empty))
  }

  function RemoveXattrStep(m: Meta, i: Inode, key: string, context: UserContext, now: Timestamp): Step {
    if i !in m.attrs then Fail(m, InodeDoesNotExist)
    else
      var denied, a := XattrDenied(key, W_OK, m.attrs[i], context), m.attrs[i].(lastMetadataChanged := now);
      if denied.Some? then Fail(m, denied.value)
      else if (i, key) !in m.xattrs then Fail(m, MissingXattrKey)
      else Step(m.(attrs := m.attrs[i := a], xattrs := m.xattrs - {(i, key)}), Ok(Empty))
  }

  /** A time to set: absent, the current time, or a given one. */
  function NewTime(before: Timestamp, t: Option<Timestamp>, now: Timestamp): Timestamp {
    match t
    case None => before
    case Some(t) => if t.nanos == UTIME_NOW then now else t
  }

  predicate IsNow(t: Option<Timestamp>) { t.Some? && t.value.nanos == UTIME_NOW }

  function UtimensStep(m: Meta, i: Inode, atime: Option<Timestamp>, mtime: Option<Timestamp>, context: UserContext,
                       now: Timestamp): Step {
    if i == ROOT_INODE then Step(m, Panicked(RootInodeForbidden))
    else if i !in m.attrs then Fail(m, InodeDoesNotExist)
    else
      var a := m.attrs[i];
      if a.uid != context.uid && context.uid != 0 && (!IsNow(atime) || !IsNow(mtime)) then
        Fail(m, OperationNotPermitted)
      else if a.uid != context.uid && !Allows(a, context, W_OK) then Fail(m, AccessDenied)
      else
        var accessed, modified := NewTime(a.lastAccessed, atime, now), NewTime(a.lastModified, mtime, now);
        var a' := a.(lastAccessed := accessed, lastModified := modified);
        Step(PutAttr(m, i, a'), Ok(Empty))
  }

  function ChmodStep(m: Meta, i: Inode, mode: bv16, context: UserContext, now: Timestamp): Step {
    if i == ROOT_INODE then Step(m, Panicked(RootInodeForbidden))
    else if i !in m.attrs then Fail(m, InodeDoesNotExist)
    else if context.uid != 0 && m.attrs[i].uid != context.uid then Fail(m, OperationNotPermitted)
    else
      var a := m.attrs[i].(mode := WithoutSetId(mode), lastMetadataChanged := now);
      Step(PutAttr(m, i, a), Ok(Empty))
  }

  function ChownStep(m: Meta, i: Inode, uid: Option<nat>, gid: Option<nat>, context: UserContext,
                     now: Timestamp): Step {
    if i == ROOT_INODE then Step(m, Panicked(RootInodeForbidden))
    else if i !in m.attrs then Fail(m, InodeDoesNotExist)
    else
      var a := m.attrs[i];
      if uid.Some? && context.uid != 0 && !(uid.value == a.uid && context.uid == a.uid) then
        Fail(m, OperationNotPermitted)
      else if gid.Some? && context.uid != 0 && context.uid != a.uid then Fail(m, OperationNotPermitted)
      else
        var a' := a.(uid := if uid.Some? then uid.value else a.uid,
                     gid := if gid.Some? then gid.value else a.gid,
                     lastMetadataChanged := if uid.Some? || gid.Some? then now else a.lastMetadataChanged);
        Step(PutAttr(m, i, a'), Ok(Empty))
  }

  function TruncateStep(m: Meta, i: Inode, newLength: nat, context: UserContext, now: Timestamp): Step {
    if newLength > MAX_FILE_SIZE then Fail(m, FileTooLarge)
    else if i !in m.attrs then Fail(m, InodeDoesNotExist)
    else if !Allows(m.attrs[i], context, W_OK) then Fail(m, AccessDenied)
    else
      var a := m.attrs[i].(size := newLength, lastMetadataChanged := now, lastModified := now);
      Step(PutAttr(m, i, a), Ok(Empty))
  }

  function WriteStep(m: Meta, i: Inode, offset: nat, length: nat, now: Timestamp): Step {
    if i !in m.attrs then Fail(m, InodeDoesNotExist)
    else
      var size := Max(m.attrs[i].size, length + offset);
      var a := m.attrs[i].(size := size, lastMetadataChanged := now, lastModified := now);
      Step(PutAttr(m, i, a), Ok(Written(length)))
  }

  function TouchStep(m: Meta, i: Inode, now: Timestamp): Step {
    if i !in m.attrs then Fail(m, InodeDoesNotExist)
    else
      var a := m.attrs[i].(lastMetadataChanged := now);
      Step(PutAttr(m, i, a), Ok(Empty))
  }

  // ------------------------------------------------------------------ links and link counts

  function HardlinkIncrementStep(m: Meta, i: Inode, now: Timestamp): Step {
    if i !in m.attrs then Fail(m, InodeDoesNotExist)
    else
      var a := m.attrs[i];
      var a' := a.(hardlinks := a.hardlinks + 1, lastMetadataChanged := now);
      var m' := PutAttr(m, i, a');
      Step(m', Ok(HardlinkTransaction(a.lastMetadataChanged, MetadataOf(m', i))))
  }

  function HardlinkRollbackStep(m: Meta, i: Inode, lastMetadataChanged: Timestamp): Step {
    if i !in m.attrs then Fail(m, InodeDoesNotExist)
    else if m.attrs[i].hardlinks == 0 then Step(m, Panicked(LinkCountUnderflow))
    else
      var a := m.attrs[i].(hardlinks := m.attrs[i].hardlinks - 1, lastMetadataChanged := lastMetadataChanged);
      Step(PutAttr(m, i, a), Ok(Empty))
  }

  /** A change to a directory's contents stamps the directory. */
  function StampDirectory(m: Meta, parent: Inode, now: Timestamp): Meta
    requires parent in m.attrs
  {
    var a := m.attrs[parent].(lastModified := now, lastMetadataChanged := now);
    PutAttr(m, parent, a)
  }

  function CreateLinkStep(m: Meta, i: Inode, parent: Inode, name: Name, context: UserContext, kind: FileKind,
                          now: Timestamp): Step {
    var found := LookupEntry(m, parent, name, context);
    if found.LookupFailed? then Fail(m, found.error)
    else if found.inode.Some? then Fail(m, AlreadyExists)
    else if !Allows(m.attrs[parent], context, W_OK) then Fail(m, AccessDenied)
    else
      var stamped := StampDirectory(m, parent, now);
      Step(stamped.(dir := m.dir[(parent, name) := Link(i, kind)]), Ok(Empty))
  }

  function ReplaceLinkStep(m: Meta, parent: Inode, name: Name, newInode: Inode, kind: FileKind, context: UserContext,
                           now: Timestamp): Step {
    if parent !in m.attrs then Fail(m, InodeDoesNotExist)
    else if !Allows(m.attrs[parent], context, W_OK) then Fail(m, AccessDenied)
    else if (parent, name) !in m.dir then Step(m, Panicked(NoEntryToReplace))
    else
      var stamped := StampDirectory(m, parent, now);
      Step(stamped.(dir := m.dir[(parent, name) := Link(newInode, kind)]), Ok(InodeId(m.dir[(parent, name)].inode)))
  }

  /** Removing an entry answers with its target, and whether it was removed: if the directory is
      sticky the target's owner may have to be looked up first. */
  function RemoveLinkStep(m: Meta, parent: Inode, name: Name, known: Option<InodeUidPair>, context: UserContext,
                          now: Timestamp): Step {
    if parent !in m.attrs then Fail(m, InodeDoesNotExist)
    else if (parent, name) !in m.dir then Fail(m, DoesNotExist)
    else
      var p := m.attrs[parent];
      var target := m.dir[(parent, name)].inode;
      if known.Some? && known.value.inode != target then Step(m, Ok(RemovedInode(target, false)))
      else if !Allows(p, context, W_OK) then Fail(m, AccessDenied)
      else
        var sticks, stamped := Sticky(p) && context.uid != p.uid && context.uid != 0, StampDirectory(m, parent, now);
        if sticks && known.None? then Step(m, Ok(RemovedInode(target, false)))
        else if sticks && context.uid != known.value.uid then Fail(m, AccessDenied)
        else Step(stamped.(dir := m.dir - {(parent, name)}), Ok(RemovedInode(target, true)))
  }

  function UpdateParentStep(m: Meta, i: Inode, newParent: Inode): Step {
    if i !in m.attrs || m.attrs[i].kind != Directory then Step(m, Panicked(NotADirectory))
    else Step(m.(parents := m.parents[i := newParent]), Ok(Empty))
  }

  function CreateInodeStep(m: Meta, parent: Inode, uid: nat, gid: nat, mode: bv16, kind: FileKind,
                           now: Timestamp): Step {
    var i := m.nextInode;
    var a := Attr(if kind == Directory then BLOCK_SIZE else 0, now, now, now, kind, WithoutSetId(mode),
                  if kind == Directory then 2 else 1, uid, gid);
    Step(PutAttr(m, i, a).(parents := if kind == Directory then m.parents[i := parent] else m.parents,
                           nextInode := i + m.numGroups),
         Ok(Entry(EntryMetadata(i, a, if kind == Directory then Some(0) else None))))
  }

  /** The rows of a deleted inode go: attributes, extended attributes and a directory's parent pointer. */
  function DeleteInode(m: Meta, i: Inode): Meta
    requires i in m.attrs
  {
    m.(attrs := m.attrs - {i},
       xattrs := map k | k in m.xattrs && k.0 != i :: m.xattrs[k],
       parents := if m.attrs[i].kind == Directory then m.parents - {i} else m.parents)
  }

  function DecrementStep(m: Meta, i: Inode, count: nat, now: Timestamp): Step {
    if i !in m.attrs then Fail(m, InodeDoesNotExist)
    else
      var a := m.attrs[i];
      if a.hardlinks < count then Step(m, Panicked(LinkCountUnderflow))
      else if a.hardlinks > count then
        var a' := a.(hardlinks := a.hardlinks - count, lastMetadataChanged := now);
        Step(PutAttr(m, i, a'), Ok(Empty))
      else if a.kind == Directory && DirectoryEntries(m, i) > 0 then Step(m, Panicked(NonEmptyDirectoryDeleted))
      else Step(DeleteInode(m, i), Ok(Empty))
  }

  // ------------------------------------------------------------------ the state machine step

  predicate IsOwnerRequest(r: Request) { r.Utimens? || r.Chmod? || r.Chown? }

  function CommitOwner(m: Meta, r: Request, now: Timestamp): Step
    requires IsOwnerRequest(r)
  {
    match r
    case Utimens(i, a, t, c) => UtimensStep(m, i, a, t, c, now)
    case Chmod(i, mode, c) => ChmodStep(m, i, mode, c, now)
    case Chown(i, u, g, c) => ChownStep(m, i, u, g, c, now)
  }

  predicate IsAttrRequest(r: Request) {
    || r.Fsync? || r.Truncate? || r.Write?
    || r.HardlinkRollback? || r.HardlinkIncrement? || r.UpdateMetadataChangedTime?
  }

  function CommitAttr(m: Meta, r: Request, now: Timestamp): Step
    requires IsAttrRequest(r)
  {
    match r
    case Fsync(i) => if i == ROOT_INODE then Step(m, Panicked(RootInodeForbidden)) else Step(m, Ok(Empty))
    case Truncate(i, len, c) => TruncateStep(m, i, len, c, now)
    case Write(i, off, data) => WriteStep(m, i, off, |data|, now)
    case HardlinkRollback(i, t) => HardlinkRollbackStep(m, i, t)
    case HardlinkIncrement(i) => HardlinkIncrementStep(m, i, now)
    case UpdateMetadataChangedTime(i, _) => TouchStep(m, i, now)
  }

  predicate IsXattrRequest(r: Request) { r.SetXattr? || r.RemoveXattr? }

  function CommitXattr(m: Meta, r: Request, now: Timestamp): Step
    requires IsXattrRequest(r)
  {
    match r
    case SetXattr(i, k, v, c) => SetXattrStep(m, i, k, v, c, now)
    case RemoveXattr(i, k, c) => RemoveXattrStep(m, i, k, c, now)
  }

  predicate IsLinkRequest(r: Request) { r.CreateLink? || r.ReplaceLink? || r.RemoveLink? }

  function CommitLink(m: Meta, r: Request, now: Timestamp): Step
    requires IsLinkRequest(r)
  {
    match r
    case RemoveLink(p, n, known, _, c) => RemoveLinkStep(m, p, n, known, c, now)
    case ReplaceLink(p, n, i, k, _, c) => ReplaceLinkStep(m, p, n, i, k, c, now)
    case CreateLink(p, n, i, k, _, c) => CreateLinkStep(m, i, p, n, c, k, now)
  }

  predicate IsInodeRequest(r: Request) { r.CreateInode? || r.UpdateParent? || r.DecrementInode? }

  function CommitInode(m: Meta, r: Request, now: Timestamp): Step
    requires IsInodeRequest(r)
  {
    match r
    case CreateInode(_, p, u, g, mode, k) => CreateInodeStep(m, p, u, g, mode, k, now)
    case UpdateParent(i, p, _) => UpdateParentStep(m, i, p)
    case DecrementInode(i, count, _) => DecrementStep(m, i, count, now)
  }

  /** commit_write, as far as the metadata tables are concerned.  Requests that are answered
      elsewhere, or broken up before they are proposed, must not get here. */
  function CommitMeta(m: Meta, r: Request, now: Timestamp): Step {
    if IsOwnerRequest(r) then CommitOwner(m, r, now)
    else if IsAttrRequest(r) then CommitAttr(m, r, now)
    else if IsXattrRequest(r) then CommitXattr(m, r, now)
    else if IsLinkRequest(r) then CommitLink(m, r, now)
    else if IsInodeRequest(r) then CommitInode(m, r, now)
    else Step(m, Panicked(UnexpectedRequest))
  }

  // ------------------------------------------------------------------ framing

  ghost predicate SameRow<T(!new)>(t: map<Inode, T>, t': map<Inode, T>, i: Inode) {
    (i in t <==> i in t') && (i in t ==> t[i] == t'[i])
  }

  ghost predicate SameDirectory(t: map<DirKey, Link>, t': map<DirKey, Link>, i: Inode) {
    && (forall n: Name :: (i, n) in t <==> (i, n) in t')
    && (forall n: Name :: (i, n) in t ==> t[(i, n)] == t'[(i, n)])
  }

  ghost predicate SameXattrs(t: map<XattrKey, seq<Byte>>, t': map<XattrKey, seq<Byte>>, i: Inode) {
    && (forall k: string :: (i, k) in t <==> (i, k) in t')
    && (forall k: string :: (i, k) in t ==> t[(i, k)] == t'[(i, k)])
  }

  /** The rows of inode i are the same in both sets of tables. */
  ghost predicate SameRows(m: Meta, m': Meta, i: Inode) {
    && SameRow(m.attrs, m'.attrs, i)
    && SameRow(m.parents, m'.parents, i)
    && SameDirectory(m.dir, m'.dir, i)
    && SameXattrs(m.xattrs, m'.xattrs, i)
  }

  /** The inode whose rows a request may touch. */
  function Target(m: Meta, r: Request): Option<Inode> {
    if r.CreateInode? then Some(m.nextInode) else MetaOf(r).inode
  }

  /** The tables differ in at most the attribute row of i, which keeps its kind. */
  ghost predicate OnlyAttrChanged(m: Meta, m': Meta, i: Inode) {
    || m' == m
    || (i in m.attrs && i in m'.attrs && m' == PutAttr(m, i, m'.attrs[i]) && m'.attrs[i].kind == m.attrs[i].kind)
  }

  lemma AttrRequestEffect(m: Meta, r: Request, now: Timestamp)
    requires IsOwnerRequest(r) || IsAttrRequest(r)
    ensures OnlyAttrChanged(m, CommitMeta(m, r, now).meta, MetaOf(r).inode.value)
  {
    hide CommitXattr, CommitLink, CommitInode, Allows, WithoutSetId, NewTime, MetadataOf;
  }

  lemma AttrRequestFrame(m: Meta, r: Request, now: Timestamp, j: Inode)
    requires (IsOwnerRequest(r) || IsAttrRequest(r)) && MetaOf(r).inode != Some(j)
    ensures SameRows(m, CommitMeta(m, r, now).meta, j)
  {
    hide CommitMeta;
    AttrRequestEffect(m, r, now);
  }

  lemma XattrRequestFrame(m: Meta, r: Request, now: Timestamp, j: Inode)
    requires IsXattrRequest(r) && MetaOf(r).inode != Some(j)
    ensures SameRows(m, CommitMeta(m, r, now).meta, j)
  {
    hide CommitOwner, CommitAttr, CommitLink, CommitInode, XattrDenied;
  }

  lemma LinkRequestFrame(m: Meta, r: Request, now: Timestamp, j: Inode)
    requires IsLinkRequest(r) && MetaOf(r).inode != Some(j)
    ensures SameRows(m, CommitMeta(m, r, now).meta, j)
  {
    hide CommitOwner, CommitAttr, CommitXattr, CommitInode, Allows, Sticky;
  }

  lemma InodeRequestFrame(m: Meta, r: Request, now: Timestamp, j: Inode)
    requires IsInodeRequest(r) && Target(m, r) != Some(j)
    ensures SameRows(m, CommitMeta(m, r, now).meta, j)
  {
    hide CommitOwner, CommitAttr, CommitXattr, CommitLink, DirectoryEntries, WithoutSetId;
  }

  /** A request changes only rows of its own inode, or of the inode it creates. */
  lemma CommitChangesOnlyItsInode(m: Meta, r: Request, now: Timestamp, j: Inode)
    requires Target(m, r) != Some(j)
    ensures SameRows(m, CommitMeta(m, r, now).meta, j)
  {
    hide CommitOwner, CommitAttr, CommitXattr, CommitLink, CommitInode;
    if IsOwnerRequest(r) || IsAttrRequest(r) {
      AttrRequestFrame(m, r, now, j);
    } else if IsXattrRequest(r) {
      XattrRequestFrame(m, r, now, j);
    } else if IsLinkRequest(r) {
      LinkRequestFrame(m, r, now, j);
    } else if IsInodeRequest(r) {
      InodeRequestFrame(m, r, now, j);
    }
  }

  lemma SameEntries(dir: map<DirKey, Link>, dir': map<DirKey, Link>, i: Inode)
    requires SameDirectory(dir, dir', i)
    ensures EntriesOf(dir, i) == EntriesOf(dir', i)
  {
    forall k: DirKey
      ensures k in EntriesOf(dir, i) <==> k in EntriesOf(dir', i)
    {
      assert k.0 == i ==> k == (i, k.1);
    }
  }

  /** Answers and rows of inode i agree. */
  ghost predicate Alike(s1: Step, s2: Step, i: Inode) {
    && s1.outcome == s2.outcome
    && SameRows(s1.meta, s2.meta, i)
    && s1.meta.nextInode == s2.meta.nextInode
  }

  ghost predicate AgreeOn(m1: Meta, m2: Meta, i: Inode) {
    m1.nextInode == m2.nextInode && m1.numGroups == m2.numGroups && SameRows(m1, m2, i)
  }

  /** Rewriting the row on both sides. */
  lemma PutAlike(m1: Meta, m2: Meta, i: Inode, a: Attr, o: Outcome)
    requires AgreeOn(m1, m2, i)
    ensures Alike(Step(PutAttr(m1, i, a), o), Step(PutAttr(m2, i, a), o), i)
  {
    hide SameDirectory, SameXattrs;
  }

  lemma OwnerRequestReads(m1: Meta, m2: Meta, r: Request, now: Timestamp, i: Inode)
    requires IsOwnerRequest(r) && MetaOf(r).inode == Some(i) && AgreeOn(m1, m2, i)
    ensures Alike(CommitOwner(m1, r, now), CommitOwner(m2, r, now), i)
  {
    hide Allows, WithoutSetId, SameDirectory, SameXattrs, NewTime, IsNow, PutAttr;
    var s1, s2 := CommitOwner(m1, r, now), CommitOwner(m2, r, now);
    if s1.outcome.Ok? {
      hide SameRows;
      var a := m1.attrs[i];
      assert a == m2.attrs[i] && i in m2.attrs by { SameAttr(m1, m2, i); }
      match r
      case Utimens(_, atime, mtime, _) =>
        PutAlike(m1, m2, i, a.(lastAccessed := NewTime(a.lastAccessed, atime, now),
                               lastModified := NewTime(a.lastModified, mtime, now)), Ok(Empty));
      case Chmod(_, mode, _) =>
        PutAlike(m1, m2, i, a.(mode := WithoutSetId(mode), lastMetadataChanged := now), Ok(Empty));
      case Chown(_, uid, gid, _) =>
        PutAlike(m1, m2, i, a.(uid := if uid.Some? then uid.value else a.uid,
                               gid := if gid.Some? then gid.value else a.gid,
                               lastMetadataChanged := if uid.Some? || gid.Some? then now else a.lastMetadataChanged),
                 Ok(Empty));
    }
  }

  lemma SameAttr(m1: Meta, m2: Meta, i: Inode)
    requires AgreeOn(m1, m2, i) && i in m1.attrs
    ensures i in m2.attrs && m1.attrs[i] == m2.attrs[i]
  {}

  lemma HardlinkIncrementReads(m1: Meta, m2: Meta, i: Inode, now: Timestamp)
    requires AgreeOn(m1, m2, i)
    ensures Alike(HardlinkIncrementStep(m1, i, now), HardlinkIncrementStep(m2, i, now), i)
  {
    hide EntriesOf, SameDirectory, SameXattrs;
    SameEntries(m1.dir, m2.dir, i);
  }

  lemma SizeRequestReads(m1: Meta, m2: Meta, r: Request, now: Timestamp, i: Inode)
    requires (r.Truncate? || r.Write?) && r.inode == i && AgreeOn(m1, m2, i)
    ensures Alike(CommitAttr(m1, r, now), CommitAttr(m2, r, now), i)
  {
    hide Allows, SameDirectory, SameXattrs, Max;
  }

  lemma AttrRequestReads(m1: Meta, m2: Meta, r: Request, now: Timestamp, i: Inode)
    requires IsAttrRequest(r) && MetaOf(r).inode == Some(i) && AgreeOn(m1, m2, i)
    ensures Alike(CommitAttr(m1, r, now), CommitAttr(m2, r, now), i)
  {
    hide SameDirectory, SameXattrs, HardlinkIncrementStep, TruncateStep, WriteStep;
    if r.Truncate? || r.Write? {
      SizeRequestReads(m1, m2, r, now, i);
    } else if r.HardlinkIncrement? {
      HardlinkIncrementReads(m1, m2, i, now);
    }
  }

  lemma SetXattrReads(m1: Meta, m2: Meta, i: Inode, key: string, value: seq<Byte>, c: UserContext, now: Timestamp)
    requires AgreeOn(m1, m2, i)
    ensures Alike(SetXattrStep(m1, i, key, value, c, now), SetXattrStep(m2, i, key, value, c, now), i)
  {
    hide XattrDenied, SameDirectory;
  }

  lemma RemoveXattrReads(m1: Meta, m2: Meta, i: Inode, key: string, c: UserContext, now: Timestamp)
    requires AgreeOn(m1, m2, i)
    ensures Alike(RemoveXattrStep(m1, i, key, c, now), RemoveXattrStep(m2, i, key, c, now), i)
  {
    hide XattrDenied, SameDirectory;
  }

  lemma XattrRequestReads(m1: Meta, m2: Meta, r: Request, now: Timestamp, i: Inode)
    requires IsXattrRequest(r) && MetaOf(r).inode == Some(i) && AgreeOn(m1, m2, i)
    ensures Alike(CommitXattr(m1, r, now), CommitXattr(m2, r, now), i)
  {
    hide Alike, AgreeOn, SetXattrStep, RemoveXattrStep;
    if r.SetXattr? {
      SetXattrReads(m1, m2, i, r.key, r.value, r.context, now);
    } else {
      RemoveXattrReads(m1, m2, i, r.key, r.context, now);
    }
  }

  lemma CreateLinkReads(m1: Meta, m2: Meta, i: Inode, p: Inode, n: Name, c: UserContext, k: FileKind, now: Timestamp)
    requires AgreeOn(m1, m2, p)
    ensures Alike(CreateLinkStep(m1, i, p, n, c, k, now), CreateLinkStep(m2, i, p, n, c, k, now), p)
  {
    hide Allows, SameXattrs;
  }

  lemma ReplaceLinkReads(m1: Meta, m2: Meta, p: Inode, n: Name, i: Inode, k: FileKind, c: UserContext, now: Timestamp)
    requires AgreeOn(m1, m2, p)
    ensures Alike(ReplaceLinkStep(m1, p, n, i, k, c, now), ReplaceLinkStep(m2, p, n, i, k, c, now), p)
  {
    hide Allows, SameXattrs;
  }

  lemma RemoveLinkReads(m1: Meta, m2: Meta, p: Inode, n: Name, known: Option<InodeUidPair>, c: UserContext,
                        now: Timestamp)
    requires AgreeOn(m1, m2, p)
    ensures Alike(RemoveLinkStep(m1, p, n, known, c, now), RemoveLinkStep(m2, p, n, known, c, now), p)
  {
    hide Allows, Sticky, SameXattrs;
  }

  lemma DecrementReads(m1: Meta, m2: Meta, i: Inode, count: nat, now: Timestamp)
    requires AgreeOn(m1, m2, i)
    ensures Alike(DecrementStep(m1, i, count, now), DecrementStep(m2, i, count, now), i)
  {
    hide EntriesOf, SameDirectory;
    SameEntries(m1.dir, m2.dir, i);
  }

  lemma LinkRequestReads(m1: Meta, m2: Meta, r: Request, now: Timestamp, i: Inode)
    requires IsLinkRequest(r) && MetaOf(r).inode == Some(i) && AgreeOn(m1, m2, i)
    ensures Alike(CommitLink(m1, r, now), CommitLink(m2, r, now), i)
  {
    hide CreateLinkStep, ReplaceLinkStep, RemoveLinkStep, AgreeOn, Alike;
    match r
    case RemoveLink(p, n, known, _, c) => RemoveLinkReads(m1, m2, p, n, known, c, now);
    case ReplaceLink(p, n, j, k, _, c) => ReplaceLinkReads(m1, m2, p, n, j, k, c, now);
    case CreateLink(p, n, j, k, _, c) => CreateLinkReads(m1, m2, j, p, n, c, k, now);
  }

  lemma InodeRequestReads(m1: Meta, m2: Meta, r: Request, now: Timestamp, i: Inode)
    requires IsInodeRequest(r) && Target(m1, r) == Some(i) && AgreeOn(m1, m2, i)
    ensures Alike(CommitInode(m1, r, now), CommitInode(m2, r, now), i)
  {
    hide DecrementStep, CreateInodeStep, SameDirectory, SameXattrs;
    if r.DecrementInode? {
      DecrementReads(m1, m2, i, r.decrementCount, now);
    } else if r.CreateInode? {
      CreateInodeReads(m1, m2, i, r.parent, r.uid, r.gid, r.mode, r.kind, now);
    }
  }

  lemma CreateInodeReads(m1: Meta, m2: Meta, i: Inode, p: Inode, uid: nat, gid: nat, mode: bv16, kind: FileKind,
                         now: Timestamp)
    requires i == m1.nextInode && AgreeOn(m1, m2, i)
    ensures Alike(CreateInodeStep(m1, p, uid, gid, mode, kind, now),
                  CreateInodeStep(m2, p, uid, gid, mode, kind, now), i)
  {
    hide WithoutSetId, SameDirectory, SameXattrs;
  }

  /** A request reads only the rows of its own inode: on tables that agree there (and on the inode
      counter) it answers alike and leaves those rows alike.  So it does not matter whether the
      tables hold one group's inodes or all of them. */
  lemma CommitReadsOnlyItsInode(m1: Meta, m2: Meta, r: Request, now: Timestamp, i: Inode)
    requires Target(m1, r) == Some(i) && AgreeOn(m1, m2, i)
    ensures Alike(CommitMeta(m1, r, now), CommitMeta(m2, r, now), i)
  {
    hide CommitOwner, CommitAttr, CommitXattr, CommitLink, CommitInode;
    if IsOwnerRequest(r) {
      OwnerRequestReads(m1, m2, r, now, i);
    } else if IsAttrRequest(r) {
      AttrRequestReads(m1, m2, r, now, i);
    } else if IsXattrRequest(r) {
      XattrRequestReads(m1, m2, r, now, i);
    } else if IsLinkRequest(r) {
      LinkRequestReads(m1, m2, r, now, i);
    } else if IsInodeRequest(r) {
      InodeRequestReads(m1, m2, r, now, i);
    }
  }
}
