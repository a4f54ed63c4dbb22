/** Replicas that execute the same requests agree on everything but the times they record. */
module Determinism {
  import opened Striping
  import opened Types
  import opened Access
  import opened Metadata

  const EPOCH: Timestamp := Timestamp(0, 0)

  function Timeless(a: Attr): Attr {
    a.(lastAccessed := EPOCH, lastModified := EPOCH, lastMetadataChanged := EPOCH)
  }

  function TimelessEntry(md: EntryMetadata): EntryMetadata { md.(attr := Timeless(md.attr)) }

  function TimelessOutcome(o: Outcome): Outcome {
    match o
    case Ok(Entry(md)) => Ok(Entry(TimelessEntry(md)))
    case Ok(HardlinkTransaction(_, md)) => Ok(HardlinkTransaction(EPOCH, TimelessEntry(md)))
    case _ => o
  }

  ghost predicate SameAttrs(t1: map<Inode, Attr>, t2: map<Inode, Attr>) {
    t1.Keys == t2.Keys && forall i :: i in t1 ==> Timeless(t1[i]) == Timeless(t2[i])
  }

  /** The tables agree in everything but times. */
  ghost predicate SameButTimes(m1: Meta, m2: Meta) {
    && SameAttrs(m1.attrs, m2.attrs)
    && m1.dir == m2.dir && m1.parents == m2.parents && m1.xattrs == m2.xattrs
    && m1.nextInode == m2.nextInode && m1.numGroups == m2.numGroups
  }

  ghost predicate SameSteps(s1: Step, s2: Step) {
    SameButTimes(s1.meta, s2.meta) && TimelessOutcome(s1.outcome) == TimelessOutcome(s2.outcome)
  }

  lemma SameAccess(a1: Attr, a2: Attr, c: UserContext, mask: bv16)
    requires Timeless(a1) == Timeless(a2)
    ensures Allows(a1, c, mask) == Allows(a2, c, mask) && Sticky(a1) == Sticky(a2)
  {
    hide CheckAccess;
  }

  lemma SameXattrAccess(a1: Attr, a2: Attr, key: string, mask: bv16, c: UserContext)
    requires Timeless(a1) == Timeless(a2)
    ensures XattrDenied(key, mask, a1, c) == XattrDenied(key, mask, a2, c)
  {
    SameAccess(a1, a2, c, mask);
  }

  lemma SamePut(t1: map<Inode, Attr>, t2: map<Inode, Attr>, i: Inode, a1: Attr, a2: Attr)
    requires SameAttrs(t1, t2) && Timeless(a1) == Timeless(a2)
    ensures SameAttrs(t1[i := a1], t2[i := a2])
  {
    hide Timeless;
  }

  // ------------------------------------------------------------------ request by request

  lemma OwnerDeterministic(m1: Meta, m2: Meta, r: Request, now1: Timestamp, now2: Timestamp)
    requires IsOwnerRequest(r) && SameButTimes(m1, m2)
    ensures SameSteps(CommitOwner(m1, r, now1), CommitOwner(m2, r, now2))
  {
    hide Allows, WithoutSetId, NewTime, IsNow, SameAttrs;
    SameKeys(m1, m2, r.inode);
    if r.inode in m1.attrs {
      SameAccess(m1.attrs[r.inode], m2.attrs[r.inode], r.context, W_OK);
      var a1, a2 := CommitOwner(m1, r, now1).meta, CommitOwner(m2, r, now2).meta;
      if r.inode in a1.attrs && r.inode in a2.attrs && Timeless(a1.attrs[r.inode]) == Timeless(a2.attrs[r.inode]) {
        SamePut(m1.attrs, m2.attrs, r.inode, a1.attrs[r.inode], a2.attrs[r.inode]);
      }
    }
  }

  lemma SameKeys(m1: Meta, m2: Meta, i: Inode)
    requires SameButTimes(m1, m2)
    ensures i in m1.attrs <==> i in m2.attrs
    ensures i in m1.attrs ==> Timeless(m1.attrs[i]) == Timeless(m2.attrs[i])
  {}

  lemma SizeDeterministic(m1: Meta, m2: Meta, r: Request, now1: Timestamp, now2: Timestamp)
    requires (r.Fsync? || r.Truncate? || r.Write? || r.UpdateMetadataChangedTime?) && SameButTimes(m1, m2)
    ensures SameSteps(CommitAttr(m1, r, now1), CommitAttr(m2, r, now2))
  {
    hide Allows, SameAttrs, Max;
    SameKeys(m1, m2, r.inode);
    if r.inode in m1.attrs {
      SameAccess(m1.attrs[r.inode], m2.attrs[r.inode], if r.Truncate? then r.context else UserContext(0, 0), W_OK);
      var a1, a2 := CommitAttr(m1, r, now1).meta, CommitAttr(m2, r, now2).meta;
      SamePut(m1.attrs, m2.attrs, r.inode, a1.attrs[r.inode], a2.attrs[r.inode]);
    }
  }

  lemma CountDeterministic(m1: Meta, m2: Meta, r: Request, now1: Timestamp, now2: Timestamp)
    requires (r.HardlinkRollback? || r.HardlinkIncrement?) && SameButTimes(m1, m2)
    ensures SameSteps(CommitAttr(m1, r, now1), CommitAttr(m2, r, now2))
  {
    hide SameAttrs, EntriesOf;
    SameKeys(m1, m2, r.inode);
    if r.inode in m1.attrs {
      var a1, a2 := CommitAttr(m1, r, now1).meta, CommitAttr(m2, r, now2).meta;
      SamePut(m1.attrs, m2.attrs, r.inode, a1.attrs[r.inode], a2.attrs[r.inode]);
    }
  }

  lemma XattrDeterministic(m1: Meta, m2: Meta, r: Request, now1: Timestamp, now2: Timestamp)
    requires IsXattrRequest(r) && SameButTimes(m1, m2)
    ensures SameSteps(CommitXattr(m1, r, now1), CommitXattr(m2, r, now2))
  {
    hide XattrDenied, SameAttrs;
    SameKeys(m1, m2, r.inode);
    if r.inode in m1.attrs {
      SameXattrAccess(m1.attrs[r.inode], m2.attrs[r.inode], r.key, W_OK, r.context);
      var a1, a2 := CommitXattr(m1, r, now1).meta, CommitXattr(m2, r, now2).meta;
      SamePut(m1.attrs, m2.attrs, r.inode, a1.attrs[r.inode], a2.attrs[r.inode]);
    }
  }

  lemma SameStamp(m1: Meta, m2: Meta, p: Inode, now1: Timestamp, now2: Timestamp)
    requires SameButTimes(m1, m2) && p in m1.attrs && p in m2.attrs
    ensures SameButTimes(StampDirectory(m1, p, now1), StampDirectory(m2, p, now2))
  {
    hide SameAttrs;
    SameKeys(m1, m2, p);
    SamePut(m1.attrs, m2.attrs, p, StampDirectory(m1, p, now1).attrs[p], StampDirectory(m2, p, now2).attrs[p]);
  }

  lemma LinkDeterministic(m1: Meta, m2: Meta, r: Request, now1: Timestamp, now2: Timestamp)
    requires IsLinkRequest(r) && SameButTimes(m1, m2)
    ensures SameSteps(CommitLink(m1, r, now1), CommitLink(m2, r, now2))
  {
    hide Allows, Sticky, SameAttrs, StampDirectory, Timeless;
    SameKeys(m1, m2, r.parent);
    if r.parent in m1.attrs {
      var p1, p2 := m1.attrs[r.parent], m2.attrs[r.parent];
      SameAccess(p1, p2, r.context, X_OK);
      SameAccess(p1, p2, r.context, W_OK);
      SameOwner(p1, p2);
      SameStamp(m1, m2, r.parent, now1, now2);
    }
  }

  lemma SameOwner(a1: Attr, a2: Attr)
    requires Timeless(a1) == Timeless(a2)
    ensures a1.uid == a2.uid && a1.kind == a2.kind && a1.hardlinks == a2.hardlinks && a1.size == a2.size
  {}

  lemma InodeDeterministic(m1: Meta, m2: Meta, r: Request, now1: Timestamp, now2: Timestamp)
    requires IsInodeRequest(r) && SameButTimes(m1, m2)
    ensures SameSteps(CommitInode(m1, r, now1), CommitInode(m2, r, now2))
  {
    hide WithoutSetId, EntriesOf;
    match r
    case CreateInode(_, _, _, _, _, _) =>
      hide SameAttrs;
      var i := m1.nextInode;
      var a1, a2 := CommitInode(m1, r, now1).meta, CommitInode(m2, r, now2).meta;
      SamePut(m1.attrs, m2.attrs, i, a1.attrs[i], a2.attrs[i]);
    case UpdateParent(_, _, _) =>
    case DecrementInode(i, count, _) => DecrementDeterministic(m1, m2, i, count, now1, now2);
  }

  lemma DecrementDeterministic(m1: Meta, m2: Meta, i: Inode, count: nat, now1: Timestamp, now2: Timestamp)
    requires SameButTimes(m1, m2)
    ensures SameSteps(DecrementStep(m1, i, count, now1), DecrementStep(m2, i, count, now2))
  {
    hide EntriesOf;
    SameKeys(m1, m2, i);
    if i in m1.attrs && m1.attrs[i].hardlinks > count {
      hide SameAttrs;
      var a1, a2 := DecrementStep(m1, i, count, now1).meta, DecrementStep(m2, i, count, now2).meta;
      SamePut(m1.attrs, m2.attrs, i, a1.attrs[i], a2.attrs[i]);
    }
  }

  /** The clock influences nothing but the recorded times: not the answer, and no other column. */
  lemma CommitDeterministic(m1: Meta, m2: Meta, r: Request, now1: Timestamp, now2: Timestamp)
    requires SameButTimes(m1, m2)
    ensures SameSteps(CommitMeta(m1, r, now1), CommitMeta(m2, r, now2))
  {
    hide CommitOwner, CommitAttr, CommitXattr, CommitLink, CommitInode, SameAttrs;
    if IsOwnerRequest(r) {
      OwnerDeterministic(m1, m2, r, now1, now2);
    } else if r.HardlinkRollback? || r.HardlinkIncrement? {
      CountDeterministic(m1, m2, r, now1, now2);
    } else if IsAttrRequest(r) {
      SizeDeterministic(m1, m2, r, now1, now2);
    } else if IsXattrRequest(r) {
      XattrDeterministic(m1, m2, r, now1, now2);
    } else if IsLinkRequest(r) {
      LinkDeterministic(m1, m2, r, now1, now2);
    } else if IsInodeRequest(r) {
      InodeDeterministic(m1, m2, r, now1, now2);
    }
  }
}
