/** Who may change which attribute of an inode, whatever request is executed. */
module AttributeRules {
  import opened Striping
  import opened Types
  import opened Access
  import opened Metadata

  predicate RootOrOwner(a: Attr, c: UserContext) { c.uid == 0 || c.uid == a.uid }

  /** The caller is the superuser or the owner, or may write and sets both times to the current time. */
  predicate MaySetTimes(a: Attr, r: Request)
    requires r.Utimens?
  {
    || RootOrOwner(a, r.context)
    || (Allows(a, r.context, W_OK) && IsNow(r.atime) && IsNow(r.mtime))
  }

  predicate NoSetId(mode: bv16) { mode & SETID_BITS == 0 }

  lemma SetIdCleared(mode: bv16)
    ensures NoSetId(WithoutSetId(mode))
  {}

  /** The attributes that only their owner may change, before and after. */
  ghost predicate OwnerRules(a: Attr, a': Attr, r: Request, i: Inode) {
    && (a'.mode != a.mode ==>
          && r.Chmod? && r.inode == i && RootOrOwner(a, r.context)
          && a'.mode == WithoutSetId(r.mode) && NoSetId(a'.mode))
    && (a'.uid != a.uid ==> r.Chown? && r.inode == i && r.context.uid == 0 && r.newUid == Some(a'.uid))
    && (a'.gid != a.gid ==> r.Chown? && r.inode == i && RootOrOwner(a, r.context) && r.newGid == Some(a'.gid))
    && (a'.lastAccessed != a.lastAccessed ==> r.Utimens? && r.inode == i && MaySetTimes(a, r))
  }

  /** Sizes and link counts, before and after. */
  ghost predicate SizeRules(a: Attr, a': Attr, r: Request, i: Inode) {
    && (a'.size != a.size ==>
          || (r.Write? && r.inode == i && a'.size == r.offset + |r.data| && a'.size > a.size)
          || (r.Truncate? && r.inode == i && a'.size == r.newLength <= MAX_FILE_SIZE && Allows(a, r.context, W_OK)))
    && (a'.hardlinks != a.hardlinks ==>
          || (r.HardlinkIncrement? && r.inode == i && a'.hardlinks == a.hardlinks + 1)
          || (r.HardlinkRollback? && r.inode == i && a'.hardlinks == a.hardlinks - 1)
          || (r.DecrementInode? && r.inode == i && a'.hardlinks == a.hardlinks - r.decrementCount))
    && a'.kind == a.kind
  }

  ghost predicate Rules(m: Meta, m': Meta, r: Request, i: Inode) {
    i in m.attrs && i in m'.attrs ==>
      OwnerRules(m.attrs[i], m'.attrs[i], r, i) && SizeRules(m.attrs[i], m'.attrs[i], r, i)
  }

  lemma OwnerRequestRules(m: Meta, r: Request, now: Timestamp, i: Inode)
    requires IsOwnerRequest(r)
    ensures Rules(m, CommitOwner(m, r, now).meta, r, i)
  {
    hide Allows, WithoutSetId, NoSetId, NewTime, IsNow;
    if r.Chmod? {
      SetIdCleared(r.mode);
    }
  }

  lemma AttrRequestRules(m: Meta, r: Request, now: Timestamp, i: Inode)
    requires IsAttrRequest(r)
    ensures Rules(m, CommitAttr(m, r, now).meta, r, i)
  {
    hide Allows, MetadataOf, NoSetId, WithoutSetId;
  }

  lemma OtherRequestRules(m: Meta, r: Request, now: Timestamp, i: Inode)
    requires IsXattrRequest(r) || IsLinkRequest(r)
    ensures Rules(m, CommitMeta(m, r, now).meta, r, i)
  {
    hide Allows, Sticky, XattrDenied, CommitOwner, CommitAttr, CommitInode, NoSetId, WithoutSetId;
  }

  lemma InodeRequestRules(m: Meta, r: Request, now: Timestamp, i: Inode)
    requires IsInodeRequest(r) && m.nextInode !in m.attrs
    ensures Rules(m, CommitInode(m, r, now).meta, r, i)
  {
    hide WithoutSetId, NoSetId, DirectoryEntries;
  }

  /** A mode is set only by the superuser or the owner, and never with the set-id bits; an owner only
      by the superuser; a group by the superuser or the owner; an access time by those, or to the
      current time by who may write; a size only by writing past the end or by truncating with write
      access; a link count only by the three requests that count links; a kind never. */
  lemma AttributeChangesAreAllowed(m: Meta, r: Request, now: Timestamp, i: Inode)
    requires i in m.attrs && i in CommitMeta(m, r, now).meta.attrs && m.nextInode !in m.attrs
    ensures OwnerRules(m.attrs[i], CommitMeta(m, r, now).meta.attrs[i], r, i)
    ensures SizeRules(m.attrs[i], CommitMeta(m, r, now).meta.attrs[i], r, i)
  {
    hide CommitOwner, CommitAttr, CommitXattr, CommitLink, CommitInode, OwnerRules, SizeRules;
    assert Rules(m, CommitMeta(m, r, now).meta, r, i) by {
      if IsOwnerRequest(r) {
        OwnerRequestRules(m, r, now, i);
      } else if IsAttrRequest(r) {
        AttrRequestRules(m, r, now, i);
      } else if IsXattrRequest(r) || IsLinkRequest(r) {
        OtherRequestRules(m, r, now, i);
      } else if IsInodeRequest(r) {
        InodeRequestRules(m, r, now, i);
      } else {
        SameAttrRules(m.attrs[i], r, i);
      }
    }
  }

  lemma SameAttrRules(a: Attr, r: Request, i: Inode)
    ensures OwnerRules(a, a, r, i) && SizeRules(a, a, r, i)
  {}

  // ------------------------------------------------------------------ what is asked for is done

  /** The key belongs to a namespace: it is its name, or begins with it and a dot. */
  predicate Within(key: string, namespace: string) { key == namespace || namespace + "." <= key }

  lemma {:induction false} FirstPartIs(key: string, namespace: string)
    requires '.' !in namespace
    ensures FirstPart(key) == namespace <==> Within(key, namespace)
  {
    if key != "" && key[0] != '.' && namespace != "" && key[0] == namespace[0] {
      FirstPartIs(key[1..], namespace[1..]);
      assert key == [key[0]] + key[1..] && namespace == [key[0]] + namespace[1..];
      assert namespace + "." == [key[0]] + (namespace[1..] + ".");
    } else if key == "" || namespace == "" {
      assert FirstPart(key) == "" <==> key == "" || key[0] == '.';
    }
  }

  /** Extended attributes of users are set by who may write, all others but one by the superuser. */
  predicate MaySetXattr(key: string, a: Attr, c: UserContext) {
    if Within(key, "user") || key == "system.posix_acl_access" then Allows(a, c, W_OK)
    else c.uid == 0 && (Within(key, "security") || Within(key, "trusted") || Within(key, "system"))
  }

  lemma XattrDeniedIff(key: string, a: Attr, c: UserContext)
    ensures XattrDenied(key, W_OK, a, c).None? <==> MaySetXattr(key, a, c)
  {
    hide Allows, Within, FirstPart;
    FirstPartIs(key, "user");
    FirstPartIs(key, "security");
    FirstPartIs(key, "trusted");
    FirstPartIs(key, "system");
    assert Within("system.posix_acl_access", "system") by { OneOfSystem(); }
  }

  lemma OneOfSystem()
    ensures Within("system.posix_acl_access", "system")
  {}

  /** The requests with which clients change the attributes of an inode. */
  predicate ChangesAttributes(r: Request) { IsOwnerRequest(r) || r.Truncate? || r.Write? || IsXattrRequest(r) }

  predicate Permitted(m: Meta, a: Attr, r: Request)
    requires ChangesAttributes(r)
  {
    match r
    case Chmod(_, _, c) => RootOrOwner(a, c)
    case Chown(_, u, g, c) =>
      (u.Some? ==> c.uid == 0 || u == Some(a.uid) == Some(c.uid)) && (g.Some? ==> RootOrOwner(a, c))
    case Utimens(_, _, _, _) => MaySetTimes(a, r)
    case Truncate(_, length, c) => length <= MAX_FILE_SIZE && Allows(a, c, W_OK)
    case Write(_, _, _) => true
    case SetXattr(_, key, _, c) => MaySetXattr(key, a, c)
    case RemoveXattr(i, key, c) => MaySetXattr(key, a, c) && (i, key) in m.xattrs
  }

  /** A time that was to be set: left, the current time, or the one given. */
  predicate TimeSet(before: Timestamp, t: Option<Timestamp>, now: Timestamp, after: Timestamp) {
    if t.None? then after == before else if IsNow(t) then after == now else after == t.value
  }

  /** What was asked for is so, and the answer says so. */
  ghost predicate AsAsked(m: Meta, a: Attr, m': Meta, a': Attr, r: Request, now: Timestamp, answer: Response)
    requires ChangesAttributes(r)
  {
    match r
    case Chmod(_, mode, _) => a'.mode == WithoutSetId(mode) && answer == Empty
    case Chown(_, u, g, _) =>
      && a'.uid == (if u.Some? then u.value else a.uid) && a'.gid == (if g.Some? then g.value else a.gid)
      && answer == Empty
    case Utimens(_, at, mt, _) =>
      && TimeSet(a.lastAccessed, at, now, a'.lastAccessed) && TimeSet(a.lastModified, mt, now, a'.lastModified)
      && answer == Empty
    case Truncate(_, length, _) => a'.size == length && answer == Empty
    case Write(_, offset, data) =>
      a'.size == (if offset + |data| > a.size then offset + |data| else a.size) && answer == Written(|data|)
    case SetXattr(i, key, value, _) => m'.xattrs == m.xattrs[(i, key) := value] && answer == Empty
    case RemoveXattr(i, key, _) => m'.xattrs == m.xattrs - {(i, key)} && answer == Empty
  }

  /** A client's request to change an inode other than the root is refused exactly if it is not permitted, and
      then changes nothing; else what was asked for is done. */
  lemma PermittedChangesAreMade(m: Meta, r: Request, now: Timestamp)
    requires ChangesAttributes(r) && r.inode in m.attrs && (IsOwnerRequest(r) ==> r.inode != ROOT_INODE)
    ensures var step, i := CommitMeta(m, r, now), r.inode;
            if Permitted(m, m.attrs[i], r) then
              && step.outcome.Ok? && i in step.meta.attrs
              && AsAsked(m, m.attrs[i], step.meta, step.meta.attrs[i], r, now, step.outcome.response)
            else step.outcome.Err? && step.meta == m
  {
    hide Allows, WithoutSetId, XattrDenied, MaySetXattr, CommitLink, CommitInode, HardlinkIncrementStep;
    if IsXattrRequest(r) {
      XattrDeniedIff(r.key, m.attrs[r.inode], r.context);
    } else if r.Utimens? {
      RootMayWrite(m.attrs[r.inode], r.context);
    }
  }

  lemma RootMayWrite(a: Attr, c: UserContext)
    ensures c.uid == 0 ==> Allows(a, c, W_OK)
  {}
}
