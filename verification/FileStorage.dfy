/** The file storage of one replica as an object, and what the replicas of a group hold together. */
module FileStorage {
  import opened Striping
  import opened Types
  import opened Metadata
  import opened Determinism
  import opened FileStore
  import MetadataStorage
  import DataStorage

  // ------------------------------------------------------------------ the object

  class FileStorage {
    const metadata: MetadataStorage.MetadataStorage
    const data: DataStorage.DataStorage

    ghost predicate Valid() { data.Valid() }

    ghost function Value(): Store
      reads metadata, data
    {
      Store(metadata.db, data.files)
    }

    constructor (nodeId: nat, group: nat, numGroups: nat, peers: seq<nat>, now: Timestamp)
      requires group < numGroups
      ensures Valid() && fresh(metadata) && fresh(data)
      ensures Value() == Store(InitialMeta(Value().meta.nextInode, numGroups, now), map[])
      ensures MetadataStorage.IsStart(Value().meta.nextInode, group, numGroups)
    {
      metadata := new MetadataStorage.MetadataStorage(group, numGroups, now);
      data := new DataStorage.DataStorage(nodeId, peers);
    }

    method Truncate(r: Request, now: Timestamp) returns (o: Outcome)
      requires Valid() && r.Truncate?
      modifies metadata, data
      ensures StoreStep(Value(), o) == CommitStore(old(Value()), r, now, data.localRank, |data.nodeIds|)
    {
      hide CommitMeta;
      o := metadata.Update(r, now);
      if o.Ok? {
        data.Truncate(r.inode, r.newLength);
      }
    }

    method Write(r: Request, now: Timestamp) returns (o: Outcome)
      requires Valid() && r.Write?
      modifies metadata, data
      ensures StoreStep(Value(), o) == CommitStore(old(Value()), r, now, data.localRank, |data.nodeIds|)
    {
      hide CommitMeta;
      o := metadata.Update(r, now);
      if o.Ok? {
        var _ := data.WriteLocalBlocks(r.inode, r.offset, r.data);
      }
    }

    method CreateInode(r: Request, now: Timestamp) returns (o: Outcome)
      requires Valid() && r.CreateInode?
      modifies metadata, data
      ensures StoreStep(Value(), o) == CommitStore(old(Value()), r, now, data.localRank, |data.nodeIds|)
    {
      o := metadata.CreateInode(r.parent, r.uid, r.gid, r.mode, r.kind, now);
      if r.kind != Directory {
        CountZero(data.localRank, |data.nodeIds|);
        data.Truncate(o.response.metadata.inode, 0);
      }
    }

    method DecrementInodeLinkCount(r: Request, now: Timestamp) returns (o: Outcome)
      requires Valid() && r.DecrementInode?
      modifies metadata, data
      ensures StoreStep(Value(), o) == CommitStore(old(Value()), r, now, data.localRank, |data.nodeIds|)
    {
      var deleted: Option<Inode>;
      o, deleted := metadata.DecrementInodeLinkCount(r.inode, r.decrementCount, now);
      if deleted.Some? {
        if deleted.value == ROOT_INODE {
          return Panicked(RootInodeForbidden);
        }
        var found := data.Delete(deleted.value);
        if !found {
          assert data.files == old(data.files);
          return Panicked(MissingDataFile);
        }
      }
    }

    method Fsync(r: Request, now: Timestamp) returns (o: Outcome)
      requires Valid() && r.Fsync?
      ensures StoreStep(Value(), o) == CommitStore(Value(), r, now, data.localRank, |data.nodeIds|)
    {
      if r.inode == ROOT_INODE {
        return Panicked(RootInodeForbidden);
      }
      o := if r.inode in data.files then Ok(Empty) else Err(DoesNotExist);
    }

    /** Requests that touch only metadata. */
    method UpdateMetadata(r: Request, now: Timestamp) returns (o: Outcome)
      requires Valid() && !IsDataRequest(r) && !r.Fsync?
      modifies metadata
      ensures StoreStep(Value(), o) == CommitStore(old(Value()), r, now, data.localRank, |data.nodeIds|)
    {
      hide CommitOwner, CommitAttr, CommitXattr, RemoveLinkStep, ReplaceLinkStep, CreateLinkStep;
      NoDataTouched(Value(), r, now, data.localRank, |data.nodeIds|);
      if r.RemoveLink? {
        o := metadata.RemoveLink(r.parent, r.name, r.linkInodeAndUid, r.context, now);
      } else if r.ReplaceLink? {
        o := metadata.ReplaceLink(r.parent, r.name, r.newInode, r.kind, r.context, now);
      } else if r.CreateLink? {
        o := metadata.CreateLink(r.inode, r.parent, r.name, r.context, r.kind, now);
      } else {
        o := metadata.Update(r, now);
      }
    }

    /** Executes one request on this replica. */
    method CommitWrite(r: Request, now: Timestamp) returns (o: Outcome)
      requires Valid()
      modifies metadata, data
      ensures StoreStep(Value(), o) == CommitStore(old(Value()), r, now, data.localRank, |data.nodeIds|)
    {
      hide CommitStore;
      if r.Fsync? {
        o := Fsync(r, now);
      } else if r.Truncate? {
        o := Truncate(r, now);
      } else if r.Write? {
        o := Write(r, now);
      } else if r.CreateInode? {
        o := CreateInode(r, now);
      } else if r.DecrementInode? {
        o := DecrementInodeLinkCount(r, now);
      } else {
        o := UpdateMetadata(r, now);
      }
    }

    /** The consistency check: is there a data file for every inode that is no directory? */
    method LocalDataPresent() returns (ok: bool)
      requires Valid()
      ensures ok <==> FilesPresent(Value())
    {
      var inodes := metadata.NonDirectoryInodes();
      ok := true;
      ghost var all := inodes;
      while inodes != {}
        invariant inodes <= all
        invariant forall i :: i in all && i !in inodes ==> i in data.files
        decreases |inodes|
      {
        var i :| i in inodes;
        if i !in data.files {
          assert i in all && i in Value().meta.attrs && i !in Value().files;
          return false;
        }
        inodes := inodes - {i};
      }
    }
  }

  lemma NoDataTouched(st: Store, r: Request, now: Timestamp, rank: nat, n: nat)
    requires rank < n && !IsDataRequest(r) && !r.Fsync?
    ensures var step := CommitMeta(st.meta, r, now);
            CommitStore(st, r, now, rank, n) == StoreStep(st.(meta := step.meta), step.outcome)
  {
    hide CommitMeta;
  }

  // ------------------------------------------------------------------ all ranks of a group

  /** The replicas of a group, by rank, mirror the same flat files and agree on all but times. */
  ghost predicate GroupMirrors(stores: seq<Store>, flat: map<Inode, seq<Byte>>) {
    forall rank :: 0 <= rank < |stores| ==>
      Mirrors(stores[rank], flat, rank, |stores|) && SameButTimes(stores[0].meta, stores[rank].meta)
  }

  /** One request, executed by each replica at a time of its own. */
  datatype Command = Command(request: Request, clocks: seq<Timestamp>)

  ghost function GroupStep(stores: seq<Store>, c: Command): (stores': seq<Store>)
    requires |c.clocks| == |stores|
    ensures |stores'| == |stores|
  {
    seq(|stores|, rank requires 0 <= rank < |stores| =>
      CommitStore(stores[rank], c.request, c.clocks[rank], rank, |stores|).store)
  }

  lemma FlatDeterministic(flat: map<Inode, seq<Byte>>, m1: Meta, m2: Meta, r: Request, now1: Timestamp, now2: Timestamp)
    requires SameButTimes(m1, m2)
    ensures FlatCommit(flat, m1, r, now1) == FlatCommit(flat, m2, r, now2)
  {
    hide CommitMeta;
    CommitDeterministic(m1, m2, r, now1, now2);
  }

  lemma GroupStepMirrors(stores: seq<Store>, flat: map<Inode, seq<Byte>>, c: Command)
    requires GroupMirrors(stores, flat) && |stores| > 0 && |c.clocks| == |stores|
    ensures GroupMirrors(GroupStep(stores, c), FlatCommit(flat, stores[0].meta, c.request, c.clocks[0]))
  {
    hide CommitStore, CommitMeta, FlatCommit, Mirrors, SameButTimes;
    var n, stores', r := |stores|, GroupStep(stores, c), c.request;
    var flat' := FlatCommit(flat, stores[0].meta, r, c.clocks[0]);
    CommitMirrors(stores[0], flat, r, c.clocks[0], 0, n);
    forall rank | 0 <= rank < n
      ensures Mirrors(stores'[rank], flat', rank, n) && SameButTimes(stores'[0].meta, stores'[rank].meta)
    {
      CommitMirrors(stores[rank], flat, r, c.clocks[rank], rank, n);
      FlatDeterministic(flat, stores[0].meta, stores[rank].meta, r, c.clocks[0], c.clocks[rank]);
      CommitDeterministic(stores[0].meta, stores[rank].meta, r, c.clocks[0], c.clocks[rank]);
    }
  }

  ghost function GroupRun(stores: seq<Store>, log: seq<Command>): (stores': seq<Store>)
    requires forall k :: 0 <= k < |log| ==> |log[k].clocks| == |stores|
    ensures |stores'| == |stores|
    decreases |log|
  {
    if log == [] then stores else GroupRun(GroupStep(stores, log[0]), log[1..])
  }

  /** The flat files after a log, computed without ranks from one replica's answers. */
  ghost function FlatRun(m: Meta, flat: map<Inode, seq<Byte>>, log: seq<Command>): map<Inode, seq<Byte>>
    requires forall k :: 0 <= k < |log| ==> |log[k].clocks| > 0
    decreases |log|
  {
    if log == [] then flat
    else
      var r, now := log[0].request, log[0].clocks[0];
      FlatRun(CommitMeta(m, r, now).meta, FlatCommit(flat, m, r, now), log[1..])
  }

  lemma {:induction false} GroupRunMirrors(stores: seq<Store>, flat: map<Inode, seq<Byte>>, log: seq<Command>)
    requires GroupMirrors(stores, flat) && |stores| > 0
    requires forall k :: 0 <= k < |log| ==> |log[k].clocks| == |stores|
    ensures GroupMirrors(GroupRun(stores, log), FlatRun(stores[0].meta, flat, log))
    decreases |log|
  {
    hide GroupMirrors, CommitStore, CommitMeta, FlatCommit, StillMirrors;
    if log != [] {
      var c := log[0];
      GroupStepMirrors(stores, flat, c);
      var stores' := GroupStep(stores, c);
      FirstMeta(stores, flat, c);
      GroupRunMirrors(stores', FlatCommit(flat, stores[0].meta, c.request, c.clocks[0]), log[1..]);
    }
  }

  lemma FirstMeta(stores: seq<Store>, flat: map<Inode, seq<Byte>>, c: Command)
    requires GroupMirrors(stores, flat) && |stores| > 0 && |c.clocks| == |stores|
    ensures GroupStep(stores, c)[0].meta == CommitMeta(stores[0].meta, c.request, c.clocks[0]).meta
  {
    hide CommitStore, CommitMeta, FlatCommit, Mirrors, SameButTimes;
    CommitMirrors(stores[0], flat, c.request, c.clocks[0], 0, |stores|);
  }

  ghost predicate IsNew(st: Store, start: Inode, groups: nat) {
    exists now :: st == Store(InitialMeta(start, groups, now), map[])
  }

  /** A new group: empty disks, and counters that start at the same inode. */
  ghost predicate NewGroup(stores: seq<Store>, start: Inode, groups: nat) {
    && |stores| > 0 && ROOT_INODE < start && groups > 0
    && forall rank :: 0 <= rank < |stores| ==> IsNew(stores[rank], start, groups)
  }

  lemma NewGroupMirrors(stores: seq<Store>, start: Inode, groups: nat)
    requires NewGroup(stores, start, groups)
    ensures GroupMirrors(stores, map[])
  {}

  // ------------------------------------------------------------------ consequences

  /** The bytes that the first k ranks hold of a file. */
  ghost function SumOfLengths(stores: seq<Store>, i: Inode, k: nat): nat
    requires k <= |stores|
  {
    if k == 0 then 0 else SumOfLengths(stores, i, k - 1) + |FileIn(stores[k - 1].files, i)|
  }

  lemma {:induction false} LengthsAreShares(stores: seq<Store>, flat: map<Inode, seq<Byte>>, i: Inode, k: nat)
    requires GroupMirrors(stores, flat) && i in flat && k <= |stores| && |stores| > 0
    ensures SumOfLengths(stores, i, k) == SumLocal(|flat[i]|, |stores|, k)
  {
    hide CountOwned, Stripe, ToLocalIndexCeiling, FlatKeys, FlatSizes, Sound, HoldsStripes, SameButTimes;
    if k > 0 {
      LengthsAreShares(stores, flat, i, k - 1);
      assert Mirrors(stores[k - 1], flat, k - 1, |stores|);
      StripeOf(stores[k - 1].files, flat, i, k - 1, |stores|);
      LocalIndexCountsOwned(|flat[i]|, k - 1, |stores|);
    }
  }

  /** After any commands, however the clocks of the replicas differ: each replica has a data file for
      every file inode, as long as the rank's share of the size in the metadata, and the shares of
      all ranks add up to that size. */
  lemma DataMatchesMetadata(stores: seq<Store>, start: Inode, groups: nat, log: seq<Command>, rank: nat, i: Inode)
    requires NewGroup(stores, start, groups) && rank < |stores|
    requires forall k :: 0 <= k < |log| ==> |log[k].clocks| == |stores|
    requires var m := GroupRun(stores, log)[rank].meta; i in m.attrs && m.attrs[i].kind != Directory
    ensures var stores' := GroupRun(stores, log); var st := stores'[rank]; var size := st.meta.attrs[i].size;
            && i in st.files && |st.files[i]| == ToLocalIndexCeiling(size, rank, |stores|)
            && SumOfLengths(stores', i, |stores|) == size
  {
    hide NewGroup, GroupRun, FlatRun;
    NewGroupMirrors(stores, start, groups);
    GroupRunMirrors(stores, map[], log);
    var stores', flat := GroupRun(stores, log), FlatRun(stores[0].meta, map[], log);
    assert Mirrors(stores'[rank], flat, rank, |stores|);
    LocalIndexCountsOwned(|flat[i]|, rank, |stores|);
    LengthsAreShares(stores', flat, i, |stores|);
    LocalLengthsSum(|flat[i]|, |stores|);
  }

  /** So the consistency check never finds a file missing, and deleting never fails to. */
  lemma NeverCorrupted(stores: seq<Store>, start: Inode, groups: nat, log: seq<Command>, rank: nat, r: Request,
                       now: Timestamp)
    requires NewGroup(stores, start, groups) && rank < |stores|
    requires forall k :: 0 <= k < |log| ==> |log[k].clocks| == |stores|
    ensures var st := GroupRun(stores, log)[rank];
            FilesPresent(st) && CommitStore(st, r, now, rank, |stores|).outcome != Panicked(MissingDataFile)
  {
    hide NewGroup, GroupRun, FlatRun, CommitStore, FlatCommit;
    NewGroupMirrors(stores, start, groups);
    GroupRunMirrors(stores, map[], log);
    var stores', flat := GroupRun(stores, log), FlatRun(stores[0].meta, map[], log);
    assert Mirrors(stores'[rank], flat, rank, |stores|);
    CommitMirrors(stores'[rank], flat, r, now, rank, |stores|);
  }
}
