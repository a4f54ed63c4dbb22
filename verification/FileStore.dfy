/** Metadata and data of one replica together: what commit_write does at one rank of a group, and
    the flat files that all ranks together hold. */
module FileStore {
  import opened Striping
  import opened Types
  import opened Access
  import opened Metadata
  import opened Determinism

  datatype Store = Store(meta: Meta, files: map<Inode, seq<Byte>>)

  datatype StoreStep = StoreStep(store: Store, outcome: Outcome)

  function FileIn(files: map<Inode, seq<Byte>>, i: Inode): seq<Byte> {
    if i in files then files[i] else []
  }

  /** The inode that a decrement has just deleted the last link of, if it had data. */
  function DeletedFile(m: Meta, step: Step, r: Request): Option<Inode> {
    if r.DecrementInode? && step.outcome.Ok? && r.inode in m.attrs && r.inode !in step.meta.attrs
       && m.attrs[r.inode].kind != Directory then Some(r.inode) else None
  }

  /** commit_write at one rank: first the metadata, then this rank's share of the data. */
  ghost function CommitStore(st: Store, r: Request, now: Timestamp, rank: nat, n: nat): StoreStep
    requires rank < n
  {
    var step := CommitMeta(st.meta, r, now);
    var files := st.files;
    if !step.outcome.Ok? then StoreStep(st.(meta := step.meta), step.outcome)
    else match r
      case Fsync(i) => StoreStep(st, if i in files then Ok(Empty) else Err(DoesNotExist))
      case Truncate(i, len, _) =>
        StoreStep(Store(step.meta, files[i := SetLength(FileIn(files, i), CountOwned(len, rank, n))]), step.outcome)
      case Write(i, offset, data) =>
        StoreStep(Store(step.meta, files[i := LocalWrite(FileIn(files, i), offset, data, rank, n)]), step.outcome)
      case CreateInode(_, _, _, _, _, kind) =>
        var i := st.meta.nextInode;
        StoreStep(Store(step.meta, if kind == Directory then files else files[i := SetLength(FileIn(files, i), 0)]),
                  step.outcome)
      case DecrementInode(i, _, _) =>
        if DeletedFile(st.meta, step, r).None? then StoreStep(Store(step.meta, files), step.outcome)
        else if i == ROOT_INODE then StoreStep(Store(step.meta, files), Panicked(RootInodeForbidden))
        else if i !in files then StoreStep(Store(step.meta, files), Panicked(MissingDataFile))
        else StoreStep(Store(step.meta, files - {i}), step.outcome)
      case _ => StoreStep(Store(step.meta, files), step.outcome)
  }

  // ------------------------------------------------------------------ the flat reference

  /** The same request on flat files: one byte sequence per file, no ranks. */
  function FlatCommit(flat: map<Inode, seq<Byte>>, m: Meta, r: Request, now: Timestamp): map<Inode, seq<Byte>> {
    var step := CommitMeta(m, r, now);
    if !step.outcome.Ok? then flat
    else match r
      case Truncate(i, len, _) => if i in flat then flat[i := SetLength(flat[i], len)] else flat
      case Write(i, offset, data) => if i in flat then flat[i := Patch(flat[i], offset, data)] else flat
      case CreateInode(_, _, _, _, _, kind) => if kind == Directory then flat else flat[m.nextInode := []]
      case DecrementInode(i, _, _) => if i in step.meta.attrs then flat else flat - {i}
      case _ => flat
  }

  /** Inode numbers from the counter on are unused, and the root is no file. */
  ghost predicate Sound(m: Meta) {
    && m.numGroups > 0 && m.nextInode > ROOT_INODE
    && (forall i :: i in m.attrs ==> i < m.nextInode)
    && (ROOT_INODE in m.attrs ==> m.attrs[ROOT_INODE].kind == Directory)
  }

  ghost predicate FlatKeys(m: Meta, flat: map<Inode, seq<Byte>>) {
    forall i :: i in flat <==> i in m.attrs && m.attrs[i].kind != Directory
  }

  /** The flat files have the sizes that the metadata says. */
  ghost predicate FlatSizes(m: Meta, flat: map<Inode, seq<Byte>>) {
    forall i :: i in flat && i in m.attrs ==> |flat[i]| == m.attrs[i].size
  }

  /** Every inode that is no directory has a data file. */
  ghost predicate FilesPresent(st: Store) {
    forall i :: i in st.meta.attrs && st.meta.attrs[i].kind != Directory ==> i in st.files
  }

  /** This rank has its stripe of every flat file. */
  ghost predicate HoldsStripes(files: map<Inode, seq<Byte>>, flat: map<Inode, seq<Byte>>, rank: nat, n: nat)
    requires rank < n
  {
    forall i :: i in flat ==> i in files && files[i] == Stripe(flat[i], rank, n)
  }

  ghost predicate Mirrors(st: Store, flat: map<Inode, seq<Byte>>, rank: nat, n: nat)
    requires rank < n
  {
    Sound(st.meta) && FlatKeys(st.meta, flat) && FlatSizes(st.meta, flat) && HoldsStripes(st.files, flat, rank, n)
  }

  // ------------------------------------------------------------------ what requests do to sizes

  /** Same inodes, with the same kinds and sizes. */
  ghost predicate SizesKept(m: Meta, m': Meta) {
    && m'.attrs.Keys == m.attrs.Keys && m'.nextInode == m.nextInode && m'.numGroups == m.numGroups
    && forall i :: i in m.attrs ==> m'.attrs[i].kind == m.attrs[i].kind && m'.attrs[i].size == m.attrs[i].size
  }

  predicate IsDataRequest(r: Request) { r.Truncate? || r.Write? || r.CreateInode? || r.DecrementInode? }

  lemma OtherRequestsKeepSizes(m: Meta, r: Request, now: Timestamp)
    requires !IsDataRequest(r)
    ensures SizesKept(m, CommitMeta(m, r, now).meta)
  {
    hide CommitOwner, CommitAttr, CommitXattr, CommitLink;
    if IsOwnerRequest(r) {
      OwnerKeepsSizes(m, r, now);
    } else if IsAttrRequest(r) {
      AttrKeepsSizes(m, r, now);
    } else if IsXattrRequest(r) {
      XattrKeepsSizes(m, r, now);
    } else if IsLinkRequest(r) {
      LinkKeepsSizes(m, r, now);
    }
  }

  lemma OwnerKeepsSizes(m: Meta, r: Request, now: Timestamp)
    requires IsOwnerRequest(r)
    ensures SizesKept(m, CommitOwner(m, r, now).meta)
  {
    hide Allows, WithoutSetId, NewTime, IsNow;
  }

  lemma AttrKeepsSizes(m: Meta, r: Request, now: Timestamp)
    requires IsAttrRequest(r) && !r.Truncate? && !r.Write?
    ensures SizesKept(m, CommitAttr(m, r, now).meta)
  {
    hide MetadataOf;
  }

  lemma XattrKeepsSizes(m: Meta, r: Request, now: Timestamp)
    requires IsXattrRequest(r)
    ensures SizesKept(m, CommitXattr(m, r, now).meta)
  {
    hide XattrDenied;
  }

  lemma LinkKeepsSizes(m: Meta, r: Request, now: Timestamp)
    requires IsLinkRequest(r)
    ensures SizesKept(m, CommitLink(m, r, now).meta)
  {
    hide Allows, Sticky;
  }

  // ------------------------------------------------------------------ each request keeps the mirror

  /** This rank mirrors the flat files, and its answer is the one the metadata gives. */
  ghost predicate StillMirrors(st: Store, flat: map<Inode, seq<Byte>>, r: Request, now: Timestamp, rank: nat, n: nat)
    requires rank < n
  {
    var step := CommitStore(st, r, now, rank, n);
    && Mirrors(step.store, FlatCommit(flat, st.meta, r, now), rank, n)
    && step.store.meta == CommitMeta(st.meta, r, now).meta
    && (!r.Fsync? ==> step.outcome == CommitMeta(st.meta, r, now).outcome)
    && step.outcome != Panicked(MissingDataFile)
  }

  lemma QuietMirrors(st: Store, flat: map<Inode, seq<Byte>>, r: Request, now: Timestamp, rank: nat, n: nat)
    requires rank < n && Mirrors(st, flat, rank, n) && !IsDataRequest(r)
    ensures StillMirrors(st, flat, r, now, rank, n)
  {
    hide CommitMeta, Mirrors, SizesKept, IsDataRequest, CommitStore, FlatCommit;
    QuietStep(st, flat, r, now, rank, n);
    OtherRequestsKeepSizes(st.meta, r, now);
    NeverMissesFile(st.meta, r, now);
    SizesKeepMirror(st, CommitMeta(st.meta, r, now).meta, flat, rank, n);
  }

  lemma SizesKeepMirror(st: Store, m': Meta, flat: map<Inode, seq<Byte>>, rank: nat, n: nat)
    requires rank < n && Mirrors(st, flat, rank, n) && SizesKept(st.meta, m')
    ensures Mirrors(st.(meta := m'), flat, rank, n)
  {
    hide HoldsStripes;
  }

  lemma QuietStep(st: Store, flat: map<Inode, seq<Byte>>, r: Request, now: Timestamp, rank: nat, n: nat)
    requires rank < n && !IsDataRequest(r)
    ensures var step := CommitStore(st, r, now, rank, n); var meta := CommitMeta(st.meta, r, now);
            && step.store == st.(meta := meta.meta)
            && (step.outcome == meta.outcome || (r.Fsync? && step.outcome == Err(DoesNotExist)))
    ensures FlatCommit(flat, st.meta, r, now) == flat
  {
    hide CommitMeta;
    if r.Fsync? {
      FsyncKeeps(st.meta, r, now);
    }
  }

  lemma FsyncKeeps(m: Meta, r: Request, now: Timestamp)
    requires r.Fsync?
    ensures CommitMeta(m, r, now).meta == m
    ensures CommitMeta(m, r, now).outcome.Ok? ==> CommitMeta(m, r, now).outcome == Ok(Empty)
  {}

  lemma NeverMissesFile(m: Meta, r: Request, now: Timestamp)
    ensures CommitMeta(m, r, now).outcome != Panicked(MissingDataFile)
  {
    hide Allows, Sticky, XattrDenied, WithoutSetId, NewTime, IsNow, MetadataOf, DirectoryEntries, PutAttr,
         StampDirectory;
  }

  lemma StripeOf(files: map<Inode, seq<Byte>>, flat: map<Inode, seq<Byte>>, i: Inode, rank: nat, n: nat)
    requires rank < n && HoldsStripes(files, flat, rank, n) && i in flat
    ensures i in files && files[i] == Stripe(flat[i], rank, n)
  {}

  /** A directory can be truncated and written to; that leaves a data file nobody reads. */
  lemma PutStray(files: map<Inode, seq<Byte>>, flat: map<Inode, seq<Byte>>, i: Inode, f: seq<Byte>, rank: nat, n: nat)
    requires rank < n && HoldsStripes(files, flat, rank, n) && i !in flat
    ensures HoldsStripes(files[i := f], flat, rank, n)
  {}

  lemma TruncateMirrors(st: Store, flat: map<Inode, seq<Byte>>, r: Request, now: Timestamp, rank: nat, n: nat)
    requires rank < n && Mirrors(st, flat, rank, n) && r.Truncate?
    ensures StillMirrors(st, flat, r, now, rank, n)
  {
    hide Stripe, SetLength, Allows, HoldsStripes, CommitOwner, CommitXattr, CommitLink, CommitInode;
    var f := SetLength(FileIn(st.files, r.inode), CountOwned(r.newLength, rank, n));
    if r.inode in flat {
      StripeOf(st.files, flat, r.inode, rank, n);
      LocalTruncateRefinesSetLength(flat[r.inode], r.newLength, rank, n);
      PutStripe(st.files, flat, r.inode, f, SetLength(flat[r.inode], r.newLength), rank, n);
    } else {
      PutStray(st.files, flat, r.inode, f, rank, n);
    }
  }

  lemma WriteMirrors(st: Store, flat: map<Inode, seq<Byte>>, r: Request, now: Timestamp, rank: nat, n: nat)
    requires rank < n && Mirrors(st, flat, rank, n) && r.Write?
    ensures StillMirrors(st, flat, r, now, rank, n)
  {
    hide Stripe, Patch, LocalWrite, HoldsStripes, CommitOwner, CommitXattr, CommitLink, CommitInode;
    var f := LocalWrite(FileIn(st.files, r.inode), r.offset, r.data, rank, n);
    if r.inode in flat {
      StripeOf(st.files, flat, r.inode, rank, n);
      LocalWriteRefinesPatch(flat[r.inode], r.offset, r.data, rank, n);
      PutStripe(st.files, flat, r.inode, f, Patch(flat[r.inode], r.offset, r.data), rank, n);
    } else {
      PutStray(st.files, flat, r.inode, f, rank, n);
    }
  }

  lemma CreateMirrors(st: Store, flat: map<Inode, seq<Byte>>, r: Request, now: Timestamp, rank: nat, n: nat)
    requires rank < n && Mirrors(st, flat, rank, n) && r.CreateInode?
    ensures StillMirrors(st, flat, r, now, rank, n)
  {
    hide CommitOwner, CommitAttr, CommitXattr, CommitLink, CreateInodeStep, HoldsStripes, FlatSizes, FlatKeys, Sound,
         Stripe;
    var i, f := st.meta.nextInode, SetLength(FileIn(st.files, st.meta.nextInode), 0);
    CreateSizes(st.meta, flat, r.parent, r.uid, r.gid, r.mode, r.kind, now);
    if r.kind != Directory {
      EmptyStripe(f, rank, n);
      PutStripe(st.files, flat, i, f, [], rank, n);
    }
  }

  lemma CreateSizes(m: Meta, flat: map<Inode, seq<Byte>>, parent: Inode, uid: nat, gid: nat, mode: bv16, kind: FileKind,
                    now: Timestamp)
    requires Sound(m) && FlatKeys(m, flat) && FlatSizes(m, flat)
    ensures var step := CreateInodeStep(m, parent, uid, gid, mode, kind, now);
            var flat' := if kind == Directory then flat else flat[m.nextInode := []];
            && step.outcome.Ok?
            && Sound(step.meta) && FlatKeys(step.meta, flat') && FlatSizes(step.meta, flat')
  {
    hide WithoutSetId;
  }

  lemma EmptyStripe(f: seq<Byte>, rank: nat, n: nat)
    requires rank < n && |f| == 0
    ensures f == Stripe([], rank, n)
  {}

  lemma PutStripe(files: map<Inode, seq<Byte>>, flat: map<Inode, seq<Byte>>, i: Inode, f: seq<Byte>, g: seq<Byte>,
                  rank: nat, n: nat)
    requires rank < n && HoldsStripes(files, flat, rank, n) && f == Stripe(g, rank, n)
    ensures HoldsStripes(files[i := f], flat[i := g], rank, n)
  {
    hide Stripe;
  }

  lemma DecrementMirrors(st: Store, flat: map<Inode, seq<Byte>>, r: Request, now: Timestamp, rank: nat, n: nat)
    requires rank < n && Mirrors(st, flat, rank, n) && r.DecrementInode?
    ensures StillMirrors(st, flat, r, now, rank, n)
  {
    hide DecrementStep, Mirrors, CommitOwner, CommitAttr, CommitXattr, CommitLink;
    var step := DecrementStep(st.meta, r.inode, r.decrementCount, now);
    if DeletedFile(st.meta, step, r).Some? {
      DeleteMirrors(st, step.meta, flat, r.inode, r.decrementCount, now, rank, n);
    } else {
      CountMirrors(st, flat, r.inode, r.decrementCount, now, rank, n);
    }
  }

  lemma DeleteMirrors(st: Store, m': Meta, flat: map<Inode, seq<Byte>>, i: Inode, count: nat, now: Timestamp,
                      rank: nat, n: nat)
    requires rank < n && Mirrors(st, flat, rank, n) && m' == DecrementStep(st.meta, i, count, now).meta
    requires i in st.meta.attrs && st.meta.attrs[i].kind != Directory && i !in m'.attrs
    ensures i != ROOT_INODE && i in st.files
    ensures Mirrors(Store(m', st.files - {i}), flat - {i}, rank, n)
  {
    hide Stripe, DirectoryEntries;
  }

  /** A decrement that deletes no file: a count goes down, or a directory goes. */
  lemma CountMirrors(st: Store, flat: map<Inode, seq<Byte>>, i: Inode, count: nat, now: Timestamp, rank: nat, n: nat)
    requires rank < n && Mirrors(st, flat, rank, n)
    requires var step := DecrementStep(st.meta, i, count, now);
             step.outcome.Ok? && i !in step.meta.attrs ==> i !in st.meta.attrs || st.meta.attrs[i].kind == Directory
    ensures var step := DecrementStep(st.meta, i, count, now);
            && Mirrors(Store(step.meta, st.files), flat, rank, n)
            && (step.outcome.Ok? && i !in step.meta.attrs ==> flat - {i} == flat)
            && step.outcome != Panicked(MissingDataFile)
  {
    hide Stripe, HoldsStripes, DirectoryEntries, FlatKeys, FlatSizes, Sound;
    RowsKeepFlat(st.meta, DecrementStep(st.meta, i, count, now).meta, flat, i);
  }

  /** If only directories disappear, and kinds and sizes stay, so do the flat files. */
  lemma RowsKeepFlat(m: Meta, m': Meta, flat: map<Inode, seq<Byte>>, i: Inode)
    requires Sound(m) && FlatKeys(m, flat) && FlatSizes(m, flat)
    requires m'.nextInode == m.nextInode && m'.numGroups == m.numGroups
    requires forall j :: j in m'.attrs ==>
               j in m.attrs && m'.attrs[j].kind == m.attrs[j].kind && m'.attrs[j].size == m.attrs[j].size
    requires forall j :: j in m.attrs && m.attrs[j].kind != Directory ==> j in m'.attrs
    ensures Sound(m') && FlatKeys(m', flat) && FlatSizes(m', flat)
    ensures i !in m'.attrs ==> flat - {i} == flat
  {}

  /** Every request keeps this rank's files the stripes of the flat files, with the sizes of the
      metadata; deleting an inode always finds its data file. */
  lemma CommitMirrors(st: Store, flat: map<Inode, seq<Byte>>, r: Request, now: Timestamp, rank: nat, n: nat)
    requires rank < n && Mirrors(st, flat, rank, n)
    ensures StillMirrors(st, flat, r, now, rank, n)
  {
    hide Mirrors, StillMirrors, FlatCommit, CommitStore, CommitMeta;
    match r
    case Truncate(_, _, _) => TruncateMirrors(st, flat, r, now, rank, n);
    case Write(_, _, _) => WriteMirrors(st, flat, r, now, rank, n);
    case CreateInode(_, _, _, _, _, _) => CreateMirrors(st, flat, r, now, rank, n);
    case DecrementInode(_, _, _) => DecrementMirrors(st, flat, r, now, rank, n);
    case _ => QuietMirrors(st, flat, r, now, rank, n);
  }
}
