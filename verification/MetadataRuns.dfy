/** What holds of one group's metadata after any sequence of requests. */
module MetadataRuns {
  import opened Striping
  import opened Types
  import opened Access
  import opened Metadata
  import opened FileStore
  import opened MetadataStorage

  datatype Entry = Entry(request: Request, now: Timestamp)

  ghost function RunMeta(m: Meta, log: seq<Entry>): Meta
    decreases |log|
  {
    if log == [] then m else RunMeta(CommitMeta(m, log[0].request, log[0].now).meta, log[1..])
  }

  // ------------------------------------------------------------------ keys of deleted inodes

  /** Extended attributes belong to live inodes; parent pointers to live directories, all of them. */
  ghost predicate KeysOk(m: Meta) {
    && (forall k :: k in m.xattrs ==> k.0 in m.attrs)
    && (forall i :: i in m.parents <==> i in m.attrs && m.attrs[i].kind == Directory)
  }

  lemma AttrKeepsKeys(m: Meta, r: Request, now: Timestamp)
    requires (IsOwnerRequest(r) || IsAttrRequest(r)) && Sound(m) && KeysOk(m)
    ensures Sound(CommitMeta(m, r, now).meta) && KeysOk(CommitMeta(m, r, now).meta)
  {
    hide CommitMeta;
    AttrRequestEffect(m, r, now);
  }

  lemma XattrKeepsKeys(m: Meta, r: Request, now: Timestamp)
    requires IsXattrRequest(r) && Sound(m) && KeysOk(m)
    ensures Sound(CommitXattr(m, r, now).meta) && KeysOk(CommitXattr(m, r, now).meta)
  {
    hide XattrDenied;
  }

  lemma LinkKeepsKeys(m: Meta, r: Request, now: Timestamp)
    requires IsLinkRequest(r) && Sound(m) && KeysOk(m)
    ensures Sound(CommitLink(m, r, now).meta) && KeysOk(CommitLink(m, r, now).meta)
  {
    hide Allows, Sticky;
  }

  lemma InodeKeepsKeys(m: Meta, r: Request, now: Timestamp)
    requires IsInodeRequest(r) && Sound(m) && KeysOk(m)
    ensures Sound(CommitInode(m, r, now).meta) && KeysOk(CommitInode(m, r, now).meta)
  {
    hide CreateInodeStep, DecrementStep;
    if r.CreateInode? {
      CreateKeepsKeys(m, r.parent, r.uid, r.gid, r.mode, r.kind, now);
    } else if r.DecrementInode? {
      DecrementKeepsKeys(m, r.inode, r.decrementCount, now);
    }
  }

  lemma CreateKeepsKeys(m: Meta, parent: Inode, uid: nat, gid: nat, mode: bv16, kind: FileKind, now: Timestamp)
    requires Sound(m) && KeysOk(m)
    ensures var m' := CreateInodeStep(m, parent, uid, gid, mode, kind, now).meta; Sound(m') && KeysOk(m')
  {
    hide WithoutSetId;
  }

  lemma DecrementKeepsKeys(m: Meta, i: Inode, count: nat, now: Timestamp)
    requires Sound(m) && KeysOk(m)
    ensures var m' := DecrementStep(m, i, count, now).meta; Sound(m') && KeysOk(m')
  {
    hide DirectoryEntries;
  }

  lemma CommitKeepsKeys(m: Meta, r: Request, now: Timestamp)
    requires Sound(m) && KeysOk(m)
    ensures Sound(CommitMeta(m, r, now).meta) && KeysOk(CommitMeta(m, r, now).meta)
  {
    hide CommitOwner, CommitAttr, CommitXattr, CommitLink, CommitInode, Sound, KeysOk;
    if IsOwnerRequest(r) || IsAttrRequest(r) {
      AttrKeepsKeys(m, r, now);
    } else if IsXattrRequest(r) {
      XattrKeepsKeys(m, r, now);
    } else if IsLinkRequest(r) {
      LinkKeepsKeys(m, r, now);
    } else if IsInodeRequest(r) {
      InodeKeepsKeys(m, r, now);
    }
  }

  lemma {:induction false} RunKeepsKeys(m: Meta, log: seq<Entry>)
    requires Sound(m) && KeysOk(m)
    ensures Sound(RunMeta(m, log)) && KeysOk(RunMeta(m, log))
    decreases |log|
  {
    hide CommitMeta, Sound, KeysOk;
    if log != [] {
      CommitKeepsKeys(m, log[0].request, log[0].now);
      RunKeepsKeys(CommitMeta(m, log[0].request, log[0].now).meta, log[1..]);
    }
  }

  /** Whatever a group has executed, no extended attribute and no parent pointer of a deleted inode
      is left, and every live directory has its parent pointer. */
  lemma DeletionLeavesNothing(start: Inode, numGroups: nat, now: Timestamp, log: seq<Entry>, i: Inode)
    requires ROOT_INODE < start && numGroups > 0
    ensures var m := RunMeta(InitialMeta(start, numGroups, now), log);
            && (i !in m.attrs ==> i !in m.parents && forall key: string :: (i, key) !in m.xattrs)
            && (i in m.attrs && m.attrs[i].kind == Directory ==> i in m.parents)
  {
    RunKeepsKeys(InitialMeta(start, numGroups, now), log);
  }

  // ------------------------------------------------------------------ allocation

  /** The inodes that a run creates, in order. */
  ghost function Allocated(m: Meta, log: seq<Entry>): seq<Inode>
    decreases |log|
  {
    if log == [] then []
    else (if log[0].request.CreateInode? then [m.nextInode] else [])
         + Allocated(CommitMeta(m, log[0].request, log[0].now).meta, log[1..])
  }

  lemma CounterMoves(m: Meta, r: Request, now: Timestamp)
    ensures var m' := CommitMeta(m, r, now).meta;
            && m'.numGroups == m.numGroups
            && m'.nextInode == if r.CreateInode? then m.nextInode + m.numGroups else m.nextInode
  {
    hide Allows, Sticky, XattrDenied, WithoutSetId, NewTime, IsNow, MetadataOf, DirectoryEntries;
  }

  lemma {:induction false} AllocatedAt(m: Meta, log: seq<Entry>, k: nat)
    requires k < |Allocated(m, log)|
    ensures Allocated(m, log)[k] == m.nextInode + k * m.numGroups
    decreases |log|
  {
    hide CommitMeta;
    var m' := CommitMeta(m, log[0].request, log[0].now).meta;
    CounterMoves(m, log[0].request, log[0].now);
    if !log[0].request.CreateInode? {
      AllocatedAt(m', log[1..], k);
    } else if k > 0 {
      AllocatedAt(m', log[1..], k - 1);
      assert k * m.numGroups == (k - 1) * m.numGroups + m.numGroups;
    }
  }

  lemma StepsOfGroup(start: Inode, n: nat, group: nat, k: nat)
    requires 0 < n && start % n == group
    ensures (start + k * n) % n == group && start <= start + k * n
  {
    assert start + k * n == (start / n + k) * n + group;
    DivModUnique(start + k * n, n, start / n + k, group);
  }

  /** The k-th inode of one group and the j-th of another are the same only if both group and
      position are; none is the root; and each leads back to the group that allocated it. */
  lemma AllocationIsUnique(n: nat, now: Timestamp, group: nat, start: Inode, log: seq<Entry>, k: nat,
                           group': nat, start': Inode, log': seq<Entry>, j: nat)
    requires n > 0 && IsStart(start, group, n) && IsStart(start', group', n)
    requires k < |Allocated(InitialMeta(start, n, now), log)| && j < |Allocated(InitialMeta(start', n, now), log')|
    ensures var i, i' := Allocated(InitialMeta(start, n, now), log)[k], Allocated(InitialMeta(start', n, now), log')[j];
            && i > ROOT_INODE && i % n == group
            && (i == i' <==> group == group' && k == j)
  {
    hide Allocated, InitialMeta;
    AllocatedAt(InitialMeta(start, n, now), log, k);
    AllocatedAt(InitialMeta(start', n, now), log', j);
    InitialCounter(start, n, now);
    InitialCounter(start', n, now);
    StepsOfGroup(start, n, group, k);
    StepsOfGroup(start', n, group', j);
    if group == group' {
      assert start == start';
      SameMultiple(k, j, n);
    }
  }

  lemma InitialCounter(start: Inode, n: nat, now: Timestamp)
    ensures InitialMeta(start, n, now).nextInode == start && InitialMeta(start, n, now).numGroups == n
  {}

  lemma SameMultiple(k: nat, j: nat, n: nat)
    requires n > 0
    ensures k * n == j * n <==> k == j
  {
    if k < j {
      AtLeastFactor(j - k, n);
      assert (j - k) * n == j * n - k * n;
    } else if j < k {
      AtLeastFactor(k - j, n);
      assert (k - j) * n == k * n - j * n;
    }
  }
}
