/** What holds in every reachable state of the cluster. */
module Invariant {
  import opened Types
  import opened Access
  import opened Metadata
  import opened Coordinator
  import opened Cluster

  // ------------------------------------------------------------------ the link ledger

  /** The directory entries that point at inode i, and their number. */
  ghost function EntrySet(dir: map<DirKey, Link>, i: Inode): set<DirKey> {
    set k | k in dir && dir[k].inode == i
  }

  ghost function EntriesTo(dir: map<DirKey, Link>, i: Inode): nat { |EntrySet(dir, i)| }

  /** The transactions that owe inode i a link or a decrement. */
  ghost function Owing(txns: map<nat, Txn>, i: Inode): set<nat> {
    set t | t in txns && Plus(txns[t]) == Some(i)
  }

  ghost function Pluses(txns: map<nat, Txn>, i: Inode): nat { |Owing(txns, i)| }

  /** The renames that have linked inode i twice. */
  ghost function Doubling(txns: map<nat, Txn>, i: Inode): set<nat> {
    set t | t in txns && Minus(txns[t]) == Some(i)
  }

  ghost function Minuses(txns: map<nat, Txn>, i: Inode): nat { |Doubling(txns, i)| }

  /** The references to inode i: its entries, plus the links in flight. */
  ghost function Refs(dir: map<DirKey, Link>, txns: map<nat, Txn>, i: Inode): int {
    EntriesTo(dir, i) + Pluses(txns, i) - Minuses(txns, i)
  }

  /** The link count of a file is its references; a directory has one link more, to itself, and at
      most one reference. */
  ghost predicate CountOk(a: Attr, refs: int) {
    && a.hardlinks == refs + (if a.kind == Directory then 1 else 0)
    && (a.kind == Directory ==> refs <= 1)
  }

  /** The counts of all inodes are right but for those in x. */
  ghost predicate LedgerOk(m: Meta, txns: map<nat, Txn>, x: set<Inode>) {
    forall i :: i in m.attrs && i != ROOT_INODE && i !in x ==> CountOk(m.attrs[i], Refs(m.dir, txns, i))
  }

  // ------------------------------------------------------------------ tables

  ghost predicate RootOk(m: Meta) {
    ROOT_INODE in m.attrs && m.attrs[ROOT_INODE].kind == Directory
  }

  /** An entry points at a live inode other than the root, and records its kind. */
  ghost predicate EntryOk(m: Meta, e: Link) {
    e.inode in m.attrs && e.inode != ROOT_INODE && m.attrs[e.inode].kind == e.kind
  }

  ghost predicate EntriesOk(m: Meta, x: set<Inode>) {
    forall k :: k in m.dir ==> m.dir[k].inode in x || EntryOk(m, m.dir[k])
  }

  /** What is spoiled has been given out once, and is no directory. */
  ghost predicate SpoiledOk(s: Sys) {
    forall i :: i in s.spoiled ==>
      && i != ROOT_INODE && s.meta.numGroups > 0
      && i % s.meta.numGroups in s.next && i < s.next[i % s.meta.numGroups]
      && (i in s.meta.attrs ==> s.meta.attrs[i].kind != Directory)
  }

  /** Inode numbers at or above a group's counter have never been given out. */
  ghost predicate FreshOk(s: Sys) {
    && s.meta.numGroups > 0
    && (forall g :: g in s.next ==> s.next[g] > ROOT_INODE && s.next[g] % s.meta.numGroups == g)
    && (forall i :: i in s.meta.attrs && i != ROOT_INODE ==>
          i % s.meta.numGroups in s.next && i < s.next[i % s.meta.numGroups])
    && (forall t :: t in s.txns && s.txns[t].CreateStart? ==> s.txns[t].group in s.next)
  }

  // ------------------------------------------------------------------ locks

  /** Every lock a transaction believes it holds is in the lock table under its id. */
  ghost predicate LocksRecorded(s: Sys) {
    forall t, i :: t in s.txns && i in Held(s.txns[t]) ==> i in s.locks && s.locks[i] == Held(s.txns[t])[i]
  }

  /** No inode is locked by two transactions. */
  ghost predicate LocksExclusive(s: Sys) {
    forall t, u, i :: t in s.txns && u in s.txns && i in Held(s.txns[t]) && i in Held(s.txns[u]) ==> t == u
  }

  ghost predicate SomeoneHolds(txns: map<nat, Txn>, i: Inode) {
    exists t :: t in txns && i in Held(txns[t])
  }

  /** No lock is left behind by a transaction that is done with it. */
  ghost predicate NoStrayLock(s: Sys) {
    forall i :: i in s.locks ==> SomeoneHolds(s.txns, i)
  }

  ghost predicate LocksOk(s: Sys) {
    LocksRecorded(s) && LocksExclusive(s) && NoStrayLock(s)
  }

  // ------------------------------------------------------------------ what a transaction knows

  ghost predicate HasEntry(m: Meta, p: Inode, n: Name, i: Inode) {
    p in m.attrs && (p, n) in m.dir && m.dir[(p, n)].inode == i
  }

  ghost predicate LacksEntry(m: Meta, p: Inode, n: Name) {
    p in m.attrs && (p, n) !in m.dir
  }

  ghost predicate SrcKnown(m: Meta, a: RenameArgs, src: Inode) {
    HasEntry(m, a.parent, a.name, src)
  }

  /** The destination has been looked up: it may be searched, and points at dst or at nothing. */
  ghost predicate DstKnown(m: Meta, a: RenameArgs, dst: Option<Inode>) {
    && a.newParent in m.attrs
    && |a.newName| <= MAX_NAME_LENGTH
    && Allows(m.attrs[a.newParent], a.context, X_OK)
    && (match dst
        case Some(d) => HasEntry(m, a.newParent, a.newName, d)
        case None => LacksEntry(m, a.newParent, a.newName))
  }

  /** A rename that holds all its locks holds them on different inodes. */
  ghost predicate Distinct(a: RenameArgs, l: Locked) {
    && l.src != a.parent && l.src != a.newParent
    && (l.dst.Some? ==> l.dst.value != a.parent && l.dst.value != a.newParent && l.dst.value != l.src)
  }

  /** md is what a read of inode i returns. */
  ghost predicate Reads(m: Meta, i: Inode, md: EntryMetadata) {
    i in m.attrs && md == MetadataOf(m, i)
  }

  ghost predicate TargetRead(m: Meta, l: Locked, da: Option<EntryMetadata>) {
    match l.dst
    case Some(d) => da.Some? && Reads(m, d, da.value)
    case None => da.None?
  }

  ghost predicate Located(m: Meta, a: RenameArgs, l: Locked) {
    SrcKnown(m, a, l.src) && DstKnown(m, a, l.dst) && Distinct(a, l)
  }

  /** The caller may take the old entry out of its directory. */
  ghost predicate MayRemove(m: Meta, a: RenameArgs, sa: EntryMetadata) {
    && a.parent in m.attrs
    && Allows(m.attrs[a.parent], a.context, W_OK)
    && !StickyForbids(m.attrs[a.parent], sa.attr.uid, a.context)
  }

  /** The caller may put the new entry into its directory, replacing what is there. */
  ghost predicate MayAdd(m: Meta, a: RenameArgs, da: Option<EntryMetadata>) {
    && a.newParent in m.attrs
    && Allows(m.attrs[a.newParent], a.context, W_OK)
    && (da.Some? ==> !StickyForbids(m.attrs[a.newParent], da.value.attr.uid, a.context) && Replaceable(da.value))
  }

  /** A directory is replaced only while it is empty. */
  ghost predicate Replaceable(da: EntryMetadata) {
    da.attr.kind == Directory ==> da.directoryEntries == Some(0)
  }

  ghost predicate BothLinked(m: Meta, a: RenameArgs, src: Inode) {
    && HasEntry(m, a.parent, a.name, src)
    && HasEntry(m, a.newParent, a.newName, src)
    && (a.parent, a.name) != (a.newParent, a.newName)
  }

  /** A replaced file that had other links has lost exactly one. */
  ghost predicate TargetDropped(m: Meta, l: Locked, da: Option<EntryMetadata>) {
    match l.dst
    case Some(d) =>
      && da.Some?
      && (da.value.attr.kind != Directory && da.value.attr.hardlinks > 1 ==>
            d in m.attrs && m.attrs[d].hardlinks == da.value.attr.hardlinks - 1)
    case None => da.None?
  }

  ghost predicate Moved(m: Meta, a: RenameArgs, src: Inode) {
    HasEntry(m, a.newParent, a.newName, src) && LacksEntry(m, a.parent, a.name)
  }

  ghost predicate RenameKnows(m: Meta, a: RenameArgs, pc: RenamePc) {
    match pc
    case LockParent => true
    case LockNewParent(_) => a.parent != a.newParent
    case FindSource(pl, npl) => a.parent == a.newParent ==> pl == npl
    case LockSource(pl, npl, src) => (a.parent == a.newParent ==> pl == npl) && SrcKnown(m, a, src)
    case FindTarget(pl, npl, src, _) =>
      (a.parent == a.newParent ==> pl == npl) && SrcKnown(m, a, src) && src != a.parent && src != a.newParent
    case LockTarget(pl, npl, src, _, dst) =>
      && (a.parent == a.newParent ==> pl == npl)
      && SrcKnown(m, a, src) && src != a.parent && src != a.newParent && DstKnown(m, a, Some(dst))
    case ReadParent(l) => Located(m, a, l) && OneLock(a, l)
    case ReadNewParent(l, pa) => Located(m, a, l) && OneLock(a, l) && Reads(m, a.parent, pa)
    case ReadSource(l, pa, npa) =>
      Located(m, a, l) && OneLock(a, l) && Reads(m, a.parent, pa) && Reads(m, a.newParent, npa)
    case ReadTarget(l, pa, npa, sa) =>
      && Located(m, a, l) && OneLock(a, l) && Reads(m, a.parent, pa) && Reads(m, a.newParent, npa)
      && Reads(m, l.src, sa) && l.dst.Some?
    case AddLink(l, sa, da) =>
      && Located(m, a, l) && OneLock(a, l) && Reads(m, l.src, sa) && TargetRead(m, l, da)
      && MayRemove(m, a, sa) && MayAdd(m, a, da)
    case DropTarget(l, sa, da) =>
      && BothLinked(m, a, l.src) && OneLock(a, l) && Distinct(a, l) && Reads(m, l.src, sa)
      && l.dst.Some? && TargetRead(m, l, da) && MayRemove(m, a, sa) && Replaceable(da.value)
    case RemoveOld(l, sa, da) =>
      && BothLinked(m, a, l.src) && OneLock(a, l) && Distinct(a, l) && Reads(m, l.src, sa)
      && MayRemove(m, a, sa) && TargetDropped(m, l, da)
    case Reparent(l, sa, da) =>
      && Moved(m, a, l.src) && OneLock(a, l) && Distinct(a, l) && Reads(m, l.src, sa) && TargetDropped(m, l, da)
      && sa.attr.kind == Directory
    case Touch(l, sa, da) =>
      && Moved(m, a, l.src) && OneLock(a, l) && Distinct(a, l) && Reads(m, l.src, sa) && TargetDropped(m, l, da)
      && (sa.attr.kind == Directory ==> l.src in m.parents && m.parents[l.src] == a.newParent)
    case ReleaseAll(guard, _) => guard != map[]
  }

  /** Renaming within one directory takes one lock on it. */
  ghost predicate OneLock(a: RenameArgs, l: Locked) {
    a.parent == a.newParent ==> l.parentLock == l.newParentLock
  }

  function LinksAtBirth(kind: FileKind): nat { if kind == Directory then 2 else 1 }

  ghost predicate HasEntries(m: Meta, i: Inode) { exists n: Name :: (i, n) in m.dir }

  /** Counting the entries of a directory tells whether it has any. */
  lemma EntriesCounted(m: Meta, i: Inode)
    ensures DirectoryEntries(m, i) > 0 <==> HasEntries(m, i)
  {
    if HasEntries(m, i) {
      var n: Name :| (i, n) in m.dir;
      assert (i, n) in EntriesOf(m.dir, i);
    } else {
      assert forall k :: k in EntriesOf(m.dir, i) ==> (i, k.1) in m.dir;
      assert EntriesOf(m.dir, i) == {};
    }
  }

  ghost predicate EmptyIfDirectory(m: Meta, i: Inode) {
    i in m.attrs && m.attrs[i].kind == Directory ==> !HasEntries(m, i)
  }

  /** What a transaction relies on: under its locks, and about the inode it owes a link. */
  ghost predicate Knows(m: Meta, t: Txn) {
    match t
    case RemovalTrying(job, _, _, _, i, _, uid) =>
      i in m.attrs && m.attrs[i].uid == uid && (job == RemoveDir ==> EmptyIfDirectory(m, i))
    case RemovalUnlocking(job, _, _, _, i, _, Drop(j)) =>
      job == RemoveDir ==> j == i && i in m.attrs && EmptyIfDirectory(m, i)
    case Renaming(a, pc) => RenameKnows(m, a, pc)
    case _ => true
  }

  /** The kind that the inode owed by a transaction must have. */
  ghost predicate OwedKindOk(t: Txn, kind: FileKind) {
    match t
    case CreateLinking(_, _, _, k, _, links) => kind == k && links == LinksAtBirth(k)
    case CreateUndo(_, links, _) => links == LinksAtBirth(kind)
    case HardlinkLinking(_, _, _, _, k, _) => kind == k && kind != Directory
    case HardlinkUndo(_, _, _) => kind != Directory
    case _ => true
  }

  ghost predicate OwedOk(m: Meta, t: Txn, x: set<Inode>) {
    Plus(t).Some? ==>
      && Plus(t).value != ROOT_INODE
      && (Plus(t).value in x || (Plus(t).value in m.attrs && OwedKindOk(t, m.attrs[Plus(t).value].kind)))
  }

  ghost predicate TxnOk(m: Meta, t: Txn, x: set<Inode>) {
    Knows(m, t) && OwedOk(m, t, x)
  }

  ghost predicate TxnsOk(m: Meta, txns: map<nat, Txn>, x: set<Inode>) {
    forall t :: t in txns ==> TxnOk(m, txns[t], x)
  }

  /** Everything is right, except that the counts of spoiled files may be short: so such a file may be
      gone although entries or transactions still refer to it. */
  ghost predicate Inv(s: Sys) {
    && RootOk(s.meta) && EntriesOk(s.meta, s.spoiled) && FreshOk(s) && SpoiledOk(s)
    && LocksOk(s)
    && TxnsOk(s.meta, s.txns, s.spoiled)
    && LedgerOk(s.meta, s.txns, s.spoiled)
  }

  // ------------------------------------------------------------------ stability under other steps

  /** The rows of all live inodes that a transaction has locked are the same. */
  ghost predicate SameHeldRows(m: Meta, m': Meta, t: Txn) {
    forall i :: i in Held(t) && i in m.attrs ==> SameRows(m, m', i)
  }

  lemma RowsKeepEntry(m: Meta, m': Meta, p: Inode, n: Name)
    requires SameRows(m, m', p)
    ensures forall i :: HasEntry(m, p, n, i) ==> HasEntry(m', p, n, i)
    ensures LacksEntry(m, p, n) ==> LacksEntry(m', p, n)
  {}

  lemma RowsKeepReads(m: Meta, m': Meta, i: Inode, md: EntryMetadata)
    requires Reads(m, i, md) && SameRows(m, m', i)
    ensures Reads(m', i, md)
  {
    SameEntries(m.dir, m'.dir, i);
  }

  /** What a rename knows is about rows it has locked, so no other step can take it away. */
  lemma RenameKnowsStable(m: Meta, m': Meta, a: RenameArgs, pc: RenamePc)
    requires RenameKnows(m, a, pc) && SameHeldRows(m, m', Renaming(a, pc))
    ensures RenameKnows(m', a, pc)
  {
    hide Allows, StickyForbids, SameDirectory, SameXattrs, EntriesOf;
    if a.parent in HeldInRename(a, pc) && a.parent in m.attrs {
      RowsKeepEntry(m, m', a.parent, a.name);
    }
    if a.newParent in HeldInRename(a, pc) && a.newParent in m.attrs {
      RowsKeepEntry(m, m', a.newParent, a.newName);
    }
    forall i, md | Reads(m, i, md) && i in HeldInRename(a, pc)
      ensures Reads(m', i, md)
    {
      RowsKeepReads(m, m', i, md);
    }
  }

  lemma KnowsStable(m: Meta, m': Meta, t: Txn)
    requires Knows(m, t) && SameHeldRows(m, m', t)
    ensures Knows(m', t)
  {
    if t.Renaming? {
      hide RenameKnows;
      RenameKnowsStable(m, m', t.args, t.pc);
    }
  }
}
