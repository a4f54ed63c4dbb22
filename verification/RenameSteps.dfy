/** Each writing step of a rename succeeds, and keeps the invariant. */
module RenameSteps {
  import opened Types
  import opened Access
  import opened Metadata
  import opened Coordinator
  import opened Cluster
  import opened Invariant
  import opened LinkLedger
  import opened TransactionSteps

  predicate InRename(s: Sys, t: nat, a: RenameArgs, pc: RenamePc) { t in s.txns && s.txns[t] == Renaming(a, pc) }

  /** A directory that has an entry has exactly its own link and that one. */
  lemma LinkedDirectory(s: Sys, k: DirKey)
    requires Inv(s) && k in s.meta.dir && s.meta.dir[k].inode in s.meta.attrs
    requires s.meta.attrs[s.meta.dir[k].inode].kind == Directory
    ensures s.meta.attrs[s.meta.dir[k].inode].hardlinks == 2
  {
    hide TxnsOk, LocksOk, FreshOk, EntrySet, Pluses, Minuses;
    var d := s.meta.dir[k].inode;
    assert EntryOk(s.meta, s.meta.dir[k]);
    assert CountOk(s.meta.attrs[d], Refs(s.meta.dir, s.txns, d));
    RefsNonNegative(s, d);
    AtMostOneDoubleLink(s, d);
    HasAnEntry(s.meta.dir, k);
  }

  lemma HasAnEntry(dir: map<DirKey, Link>, k: DirKey)
    requires k in dir
    ensures EntriesTo(dir, dir[k].inode) >= 1
  {
    assert k in EntrySet(dir, dir[k].inode);
  }

  /** What a change to directory q leaves of a rename's knowledge about other inodes. */
  lemma ReadsBeside(m: Meta, m': Meta, q: Inode, i: Inode, md: EntryMetadata)
    requires Reads(m, i, md) && i != q && Stamped(m, m', q)
    requires forall k: DirKey :: k.0 != q ==> (k in m.dir <==> k in m'.dir)
    ensures Reads(m', i, md)
  {
    assert EntriesOf(m'.dir, i) == EntriesOf(m.dir, i);
  }

  lemma AccessBeside(m: Meta, m': Meta, q: Inode, a: RenameArgs, sa: EntryMetadata)
    requires MayRemove(m, a, sa) && Stamped(m, m', q)
    ensures MayRemove(m', a, sa)
  {
    hide CheckAccess;
  }

  // ------------------------------------------------------------------ adding the new link

  lemma ReplaceSucceeds(m: Meta, a: RenameArgs, l: Locked, sa: EntryMetadata, da: Option<EntryMetadata>, now: Timestamp)
    requires RenameKnows(m, a, AddLink(l, sa, da)) && l.dst.Some?
    ensures var step := ReplaceLinkStep(m, a.newParent, a.newName, l.src, sa.attr.kind, a.context, now);
            var k := (a.newParent, a.newName);
            && step.outcome == Ok(InodeId(l.dst.value))
            && k in m.dir && m.dir[k].inode == l.dst.value
            && step.meta.dir == m.dir[k := Link(l.src, sa.attr.kind)]
            && Stamped(m, step.meta, a.newParent)
  {
    hide Allows, Sticky;
  }

  lemma CreateSucceeds(m: Meta, a: RenameArgs, l: Locked, sa: EntryMetadata, da: Option<EntryMetadata>, now: Timestamp)
    requires RenameKnows(m, a, AddLink(l, sa, da)) && l.dst.None?
    ensures var step := CreateLinkStep(m, l.src, a.newParent, a.newName, a.context, sa.attr.kind, now);
            var k := (a.newParent, a.newName);
            && step.outcome == Ok(Empty)
            && k !in m.dir
            && step.meta.dir == m.dir[k := Link(l.src, sa.attr.kind)]
            && Stamped(m, step.meta, a.newParent)
  {
    hide Allows, Sticky;
  }

  /** With the new link in place the rename knows that its inode is linked twice. */
  lemma LinkedTwice(m: Meta, m': Meta, a: RenameArgs, l: Locked, sa: EntryMetadata, da: Option<EntryMetadata>)
    requires RenameKnows(m, a, AddLink(l, sa, da)) && Stamped(m, m', a.newParent)
    requires m'.dir == m.dir[(a.newParent, a.newName) := Link(l.src, sa.attr.kind)]
    ensures BothLinked(m', a, l.src) && Reads(m', l.src, sa) && MayRemove(m', a, sa) && TargetRead(m', l, da)
  {
    hide Allows, MetadataOf, StickyForbids;
    ReadsBeside(m, m', a.newParent, l.src, sa);
    AccessBeside(m, m', a.newParent, a, sa);
    if l.dst.Some? {
      ReadsBeside(m, m', a.newParent, l.dst.value, da.value);
    }
  }

  /** The source's new entry is a right one. */
  lemma SourceEntryOk(s: Sys, a: RenameArgs, src: Inode, sa: EntryMetadata)
    requires Inv(s) && SrcKnown(s.meta, a, src) && Reads(s.meta, src, sa)
    ensures EntryOk(s.meta, Link(src, sa.attr.kind))
  {
    var e := s.meta.dir[(a.parent, a.name)];
    assert e.inode in s.spoiled || EntryOk(s.meta, e);
  }

  lemma ReplaceFine(s: Sys, t: nat, a: RenameArgs, l: Locked, sa: EntryMetadata, da: Option<EntryMetadata>,
                    now: Timestamp, choice: Inode)
    requires Inv(s) && InRename(s, t, a, AddLink(l, sa, da)) && l.dst.Some?
    ensures NextFine(s, t, choice, now)
  {
    hide LocksOk, LedgerOk, FreshOk, SpoiledOk, EntriesOk, RootOk, RenameKnows, ReplaceLinkStep, Located, MetadataOf,
         EntryOk, CommitOwner, CommitAttr, CommitXattr, CommitInode, ResumeRemoval, HeldBy,
         RenameDenied;
    assert TxnOk(s.meta, s.txns[t], s.spoiled);
    var k := (a.newParent, a.newName);
    var step := ReplaceLinkStep(s.meta, a.newParent, a.newName, l.src, sa.attr.kind, a.context, now);
    ReplaceSucceeds(s.meta, a, l, sa, da, now);
    ReplaceGood(s, t, step.meta, a, l, sa, da);
  }

  lemma ReplaceGood(s: Sys, t: nat, m': Meta, a: RenameArgs, l: Locked, sa: EntryMetadata, da: Option<EntryMetadata>)
    requires Inv(s) && t in s.txns && s.txns[t] == Renaming(a, AddLink(l, sa, da)) && l.dst.Some?
    requires var k := (a.newParent, a.newName);
             && k in s.meta.dir && s.meta.dir[k].inode == l.dst.value
             && m'.dir == s.meta.dir[k := Link(l.src, sa.attr.kind)] && Stamped(s.meta, m', a.newParent)
    ensures da.Some? && (da.value.attr.kind == Directory ==> da.value.attr.hardlinks == 2)
    ensures Good(s, t, m', Renaming(a, DropTarget(l, sa, da)))
  {
    hide LocksOk, LedgerOk, FreshOk, SpoiledOk, RootOk, Stamped, SameCounts, MetadataOf, MayRemove, BothLinked,
         Allows;
    var k, txn' := (a.newParent, a.newName), Renaming(a, DropTarget(l, sa, da));
    assert TxnOk(s.meta, s.txns[t], s.spoiled);
    LinkedTwice(s.meta, m', a, l, sa, da);
    TargetLinks(s, k, l.dst.value, da.value);
    SourceEntryOk(s, a, l.src, sa);
    TablesAfterLink(s, t, m', k, Link(l.src, sa.attr.kind));
    OwedTarget(s, m', k, txn');
    ReplaceSettles(s.meta, m', s.txns, t, txn', k, Link(l.src, sa.attr.kind), s.spoiled);
  }

  lemma TargetLinks(s: Sys, k: DirKey, d: Inode, da: EntryMetadata)
    requires Inv(s) && k in s.meta.dir && s.meta.dir[k].inode == d && Reads(s.meta, d, da)
    ensures da.attr.kind == Directory ==> da.attr.hardlinks == 2
  {
    hide Inv;
    if da.attr.kind == Directory {
      LinkedDirectory(s, k);
    }
  }

  lemma OwedTarget(s: Sys, m': Meta, k: DirKey, txn': Txn)
    requires Inv(s) && k in s.meta.dir && SameCounts(s.meta, m')
    requires txn'.Renaming? && txn'.pc.DropTarget? && txn'.pc.l.dst == Some(s.meta.dir[k].inode)
    ensures OwedOk(m', txn', s.spoiled)
  {
    hide LocksOk, LedgerOk, FreshOk, TxnsOk;
    assert s.meta.dir[k].inode in s.spoiled || EntryOk(s.meta, s.meta.dir[k]);
  }

  lemma AddFine(s: Sys, t: nat, a: RenameArgs, l: Locked, sa: EntryMetadata, da: Option<EntryMetadata>,
                now: Timestamp, choice: Inode)
    requires Inv(s) && InRename(s, t, a, AddLink(l, sa, da)) && l.dst.None?
    ensures NextFine(s, t, choice, now)
  {
    hide LocksOk, LedgerOk, FreshOk, SpoiledOk, EntriesOk, RootOk, RenameKnows, CreateLinkStep, Located, MetadataOf,
         EntryOk, CommitOwner, CommitAttr, CommitXattr, CommitInode, ResumeRemoval, HeldBy,
         RenameDenied;
    assert TxnOk(s.meta, s.txns[t], s.spoiled);
    var step := CreateLinkStep(s.meta, l.src, a.newParent, a.newName, a.context, sa.attr.kind, now);
    CreateSucceeds(s.meta, a, l, sa, da, now);
    AddGood(s, t, step.meta, a, l, sa, da);
  }

  lemma AddGood(s: Sys, t: nat, m': Meta, a: RenameArgs, l: Locked, sa: EntryMetadata, da: Option<EntryMetadata>)
    requires Inv(s) && t in s.txns && s.txns[t] == Renaming(a, AddLink(l, sa, da)) && l.dst.None?
    requires var k := (a.newParent, a.newName);
             && k !in s.meta.dir
             && m'.dir == s.meta.dir[k := Link(l.src, sa.attr.kind)] && Stamped(s.meta, m', a.newParent)
    ensures Good(s, t, m', Renaming(a, RemoveOld(l, sa, da)))
  {
    hide LocksOk, LedgerOk, FreshOk, SpoiledOk, RootOk, Stamped, SameCounts, MetadataOf, MayRemove, BothLinked,
         Allows;
    var k, txn' := (a.newParent, a.newName), Renaming(a, RemoveOld(l, sa, da));
    assert TxnOk(s.meta, s.txns[t], s.spoiled);
    LinkedTwice(s.meta, m', a, l, sa, da);
    SourceEntryOk(s, a, l.src, sa);
    TablesAfterLink(s, t, m', k, Link(l.src, sa.attr.kind));
    LinkSettles(s.meta, m', s.txns, t, txn', k, Link(l.src, sa.attr.kind), s.spoiled);
  }

  // ------------------------------------------------------------------ dropping the replaced inode

  /** A rename decrements its target by what the target's kind calls for, and an empty one if it
      is a directory. */
  lemma TargetFacts(m: Meta, a: RenameArgs, l: Locked, sa: EntryMetadata, da: Option<EntryMetadata>)
    requires RenameKnows(m, a, DropTarget(l, sa, da))
    ensures l.dst.Some? && da.Some? && l.dst.value in m.attrs && m.attrs[l.dst.value].kind == da.value.attr.kind
    ensures da.value.attr.kind == Directory ==> DirectoryEntries(m, l.dst.value) == 0
  {
    hide EntriesOf;
  }

  lemma DropTargetFine(s: Sys, t: nat, now: Timestamp, choice: Inode)
    requires Inv(s) && t in s.txns && s.txns[t].Renaming? && s.txns[t].pc.DropTarget?
    ensures ActionOf(s.txns[t], choice).Propose? && s.txns[t].pc.l.dst.Some?
    ensures var step := CommitMeta(s.meta, ActionOf(s.txns[t], choice).request, now);
            Fine(s, t, choice, step) || StopsOnSpoiled(s, s.txns[t].pc.l.dst.value, step)
  {
    hide LocksOk, LedgerOk, FreshOk, SpoiledOk, EntriesOk, RootOk, RenameKnows, DirectoryEntries, DecrementStep,
         CommitOwner, CommitAttr, CommitXattr, CommitLink, ResumeRemoval, Good, SameCountsBut;
    var a, l, sa, da := s.txns[t].args, s.txns[t].pc.l, s.txns[t].pc.sa, s.txns[t].pc.da;
    assert TxnOk(s.meta, s.txns[t], s.spoiled);
    TargetFacts(s.meta, a, l, sa, da);
    var count := if da.value.attr.kind == Directory then 2 else 1;
    var step := DecrementStep(s.meta, l.dst.value, count, now);
    if l.dst.value in s.spoiled {
      NotRoot(s, l.dst.value);
      DecrementElsewhere(s.meta, l.dst.value, count, now);
      if !step.outcome.Panicked? {
        DropTargetSpoiled(s, t, choice, count, now);
      }
    } else {
      DecrementGood(s, t, l.dst.value, count, now, Renaming(a, RemoveOld(l, sa, da)));
      DroppedKnown(s.meta, a, l, sa, da, count, now);
    }
  }

  lemma DropTargetSpoiled(s: Sys, t: nat, choice: Inode, count: nat, now: Timestamp)
    requires Inv(s) && t in s.txns && s.txns[t].Renaming? && s.txns[t].pc.DropTarget?
    requires var l, da := s.txns[t].pc.l, s.txns[t].pc.da;
             && l.dst.Some? && l.dst.value in s.spoiled && l.dst.value in s.meta.attrs && da.Some?
             && count == (if da.value.attr.kind == Directory then 2 else 1)
             && !DecrementStep(s.meta, l.dst.value, count, now).outcome.Panicked?
    ensures Fine(s, t, choice, DecrementStep(s.meta, s.txns[t].pc.l.dst.value, count, now))
  {
    hide Inv, RenameKnows, SameCountsBut, HeldBy, ResumeRemoval;
    var a, l, sa, da := s.txns[t].args, s.txns[t].pc.l, s.txns[t].pc.sa, s.txns[t].pc.da;
    var j, txn' := l.dst.value, Renaming(a, RemoveOld(l, sa, da));
    var step := DecrementStep(s.meta, j, count, now);
    assert RenameKnows(s.meta, a, DropTarget(l, sa, da)) by { KnowsOf(s, t); }
    NotRoot(s, j);
    DecrementElsewhere(s.meta, j, count, now);
    DroppedKnown(s.meta, a, l, sa, da, count, now);
    assert s.spoiled + {j} == s.spoiled;
    SpoiledGood(s, t, step.meta, txn', j, s.spoiled);
  }

  lemma KnowsOf(s: Sys, t: nat)
    requires Inv(s) && t in s.txns
    ensures Knows(s.meta, s.txns[t])
  {
    hide LocksOk, LedgerOk, FreshOk, SpoiledOk, EntriesOk, Knows, OwedOk;
    assert TxnOk(s.meta, s.txns[t], s.spoiled);
  }

  lemma DroppedKnown(m: Meta, a: RenameArgs, l: Locked, sa: EntryMetadata, da: Option<EntryMetadata>, count: nat,
                     now: Timestamp)
    requires RenameKnows(m, a, DropTarget(l, sa, da)) && count == if da.value.attr.kind == Directory then 2 else 1
    requires DecrementStep(m, l.dst.value, count, now).outcome.Ok?
    ensures RenameKnows(DecrementStep(m, l.dst.value, count, now).meta, a, RemoveOld(l, sa, da))
  {
    hide Allows, StickyForbids, EntriesOf;
  }

  // ------------------------------------------------------------------ removing the old link

  lemma RemoveOldSucceeds(m: Meta, a: RenameArgs, l: Locked, sa: EntryMetadata, da: Option<EntryMetadata>,
                          now: Timestamp)
    requires RenameKnows(m, a, RemoveOld(l, sa, da))
    ensures var step := RemoveLinkStep(m, a.parent, a.name, Some(InodeUidPair(l.src, sa.attr.uid)), a.context, now);
            var k := (a.parent, a.name);
            && step.outcome == Ok(RemovedInode(l.src, true))
            && k in m.dir && m.dir[k].inode == l.src
            && step.meta.dir == m.dir - {k}
            && Stamped(m, step.meta, a.parent)
  {
    hide Allows, Sticky;
  }

  lemma OldRemovedKnown(m: Meta, m': Meta, a: RenameArgs, l: Locked, sa: EntryMetadata, da: Option<EntryMetadata>)
    requires RenameKnows(m, a, RemoveOld(l, sa, da)) && Stamped(m, m', a.parent)
    requires m'.dir == m.dir - {(a.parent, a.name)}
    ensures Moved(m', a, l.src) && Reads(m', l.src, sa) && TargetDropped(m', l, da)
  {
    hide Allows, StickyForbids, MetadataOf;
    ReadsBeside(m, m', a.parent, l.src, sa);
  }

  lemma RemoveOldFine(s: Sys, t: nat, a: RenameArgs, l: Locked, sa: EntryMetadata, da: Option<EntryMetadata>,
                      now: Timestamp, choice: Inode)
    requires Inv(s) && InRename(s, t, a, RemoveOld(l, sa, da))
    ensures NextFine(s, t, choice, now)
  {
    hide LocksOk, LedgerOk, FreshOk, SpoiledOk, EntriesOk, RootOk, RenameKnows, RemoveLinkStep, MetadataOf, EntryOk,
         Good, OwedOk, CommitOwner, CommitAttr, CommitXattr, CommitInode, ResumeRemoval, HeldBy,
         RenameDenied;
    assert TxnOk(s.meta, s.txns[t], s.spoiled);
    var step := RemoveLinkStep(s.meta, a.parent, a.name, Some(InodeUidPair(l.src, sa.attr.uid)), a.context, now);
    RemoveOldSucceeds(s.meta, a, l, sa, da, now);
    RemoveOldGood(s, t, step.meta, a, l, sa, da);
  }

  lemma RemoveOldGood(s: Sys, t: nat, m': Meta, a: RenameArgs, l: Locked, sa: EntryMetadata, da: Option<EntryMetadata>)
    requires Inv(s) && t in s.txns && s.txns[t] == Renaming(a, RemoveOld(l, sa, da))
    requires var k := (a.parent, a.name);
             && k in s.meta.dir && s.meta.dir[k].inode == l.src
             && m'.dir == s.meta.dir - {k} && Stamped(s.meta, m', a.parent)
    ensures sa.attr.kind == Directory ==> Good(s, t, m', Renaming(a, Reparent(l, sa, da)))
    ensures sa.attr.kind != Directory ==> Good(s, t, m', Renaming(a, Touch(l, sa, da)))
  {
    hide LocksOk, LedgerOk, FreshOk, SpoiledOk, RootOk, EntriesOk, Stamped, SameCounts, MetadataOf, Moved, BothLinked,
         MayRemove;
    assert TxnOk(s.meta, s.txns[t], s.spoiled);
    var k := (a.parent, a.name);
    OldRemovedKnown(s.meta, m', a, l, sa, da);
    TablesAfterUnlink(s, t, m', k);
    var txn' := if sa.attr.kind == Directory then Renaming(a, Reparent(l, sa, da)) else Renaming(a, Touch(l, sa, da));
    UnlinkSettles(s.meta, m', s.txns, t, txn', k, s.spoiled);
  }

  // ------------------------------------------------------------------ finishing

  lemma ReparentFine(s: Sys, t: nat, a: RenameArgs, l: Locked, sa: EntryMetadata, da: Option<EntryMetadata>,
                     now: Timestamp, choice: Inode)
    requires Inv(s) && InRename(s, t, a, Reparent(l, sa, da))
    ensures NextFine(s, t, choice, now)
  {
    hide LocksOk, LedgerOk, FreshOk, SpoiledOk, EntriesOk, RootOk, RenameKnows, Good, UpdateParentStep, SameCounts,
         CommitOwner, CommitAttr, CommitXattr, CommitLink, ResumeRemoval;
    assert TxnOk(s.meta, s.txns[t], s.spoiled);
    ReparentSucceeds(s.meta, a, l, sa, da);
    QuietGood(s, t, UpdateParentStep(s.meta, l.src, a.newParent).meta, Renaming(a, Touch(l, sa, da)));
  }

  lemma ReparentSucceeds(m: Meta, a: RenameArgs, l: Locked, sa: EntryMetadata, da: Option<EntryMetadata>)
    requires RenameKnows(m, a, Reparent(l, sa, da))
    ensures var step := UpdateParentStep(m, l.src, a.newParent);
            && step.outcome == Ok(Empty) && step.meta.dir == m.dir && SameCounts(m, step.meta)
            && Knows(step.meta, Renaming(a, Touch(l, sa, da)))
  {
    hide EntriesOf;
  }

  lemma TouchSucceeds(m: Meta, a: RenameArgs, l: Locked, sa: EntryMetadata, da: Option<EntryMetadata>, now: Timestamp)
    requires RenameKnows(m, a, Touch(l, sa, da))
    ensures TouchStep(m, l.src, now).outcome == Ok(Empty)
    ensures SameCounts(m, TouchStep(m, l.src, now).meta) && TouchStep(m, l.src, now).meta.dir == m.dir
    ensures Knows(TouchStep(m, l.src, now).meta, Renaming(a, ReleaseAll(HeldBy(a, l), Success)))
  {
    hide EntriesOf;
    assert a.parent in HeldBy(a, l);
  }

  lemma TouchFine(s: Sys, t: nat, a: RenameArgs, l: Locked, sa: EntryMetadata, da: Option<EntryMetadata>,
                  now: Timestamp, choice: Inode)
    requires Inv(s) && InRename(s, t, a, Touch(l, sa, da))
    ensures NextFine(s, t, choice, now)
  {
    hide LocksOk, LedgerOk, FreshOk, SpoiledOk, EntriesOk, RootOk, RenameKnows, TouchStep, SameCounts, Good,
         CommitOwner, CommitXattr, CommitLink, CommitInode, ResumeRemoval;
    assert TxnOk(s.meta, s.txns[t], s.spoiled);
    TouchSucceeds(s.meta, a, l, sa, da, now);
    QuietGood(s, t, TouchStep(s.meta, l.src, now).meta, Renaming(a, ReleaseAll(HeldBy(a, l), Success)));
  }
}
