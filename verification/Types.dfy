/** The vocabulary of the wire protocol: error codes, requests, responses, and which inode and
    lock a request concerns. */
module Types {
  import opened Striping

  type Inode = nat
  type Name = string
  type LockId = nat

  const ROOT_INODE: Inode := 1
  const MAX_NAME_LENGTH: nat := 255
  const MAX_FILE_SIZE: nat := 1024 * 1024 * 1024 * 1024

  datatype Option<+T> = None | Some(value: T)

  datatype FileKind = File | Directory | Symlink

  datatype ErrorCode =
    | DoesNotExist
    | InodeDoesNotExist
    | FileTooLarge
    | AccessDenied
    | OperationNotPermitted
    | AlreadyExists
    | NameTooLong
    | NotEmpty
    | MissingXattrKey
    | BadResponse
    | BadRequest
    | Corrupted
    | RaftFailure
    | InvalidXattrNamespace
    | Uncategorized

  datatype Timestamp = Timestamp(seconds: int, nanos: int)

  datatype UserContext = UserContext(uid: nat, gid: nat)

  datatype InodeUidPair = InodeUidPair(inode: Inode, uid: nat)

  /** One row of the attribute table. */
  datatype Attr = Attr(
    size: nat,
    lastAccessed: Timestamp,
    lastModified: Timestamp,
    lastMetadataChanged: Timestamp,
    kind: FileKind,
    mode: bv16,
    hardlinks: nat,
    uid: nat,
    gid: nat)

  /** The requests that are proposed to a group. */
  datatype Request =
    | Fsync(inode: Inode)
    | Truncate(inode: Inode, newLength: nat, context: UserContext)
    | Chown(inode: Inode, newUid: Option<nat>, newGid: Option<nat>, context: UserContext)
    | Chmod(inode: Inode, mode: bv16, context: UserContext)
    | Utimens(inode: Inode, atime: Option<Timestamp>, mtime: Option<Timestamp>, context: UserContext)
    | SetXattr(inode: Inode, key: string, value: seq<Byte>, context: UserContext)
    | RemoveXattr(inode: Inode, key: string, context: UserContext)
    | Write(inode: Inode, offset: nat, data: seq<Byte>)
    | Lock(inode: Inode)
    | Unlock(inode: Inode, heldId: LockId)
    | HardlinkRollback(inode: Inode, lastModifiedTime: Timestamp)
    | CreateLink(parent: Inode, name: Name, inode: Inode, kind: FileKind, lockId: Option<LockId>, context: UserContext)
    | ReplaceLink(parent: Inode, name: Name, newInode: Inode, kind: FileKind, lockId: Option<LockId>,
                  context: UserContext)
    | RemoveLink(parent: Inode, name: Name, linkInodeAndUid: Option<InodeUidPair>, lockId: Option<LockId>,
                 context: UserContext)
    | CreateInode(raftGroup: nat, parent: Inode, uid: nat, gid: nat, mode: bv16, kind: FileKind)
    | HardlinkIncrement(inode: Inode)
    | UpdateParent(inode: Inode, newParent: Inode, lockId: Option<LockId>)
    | UpdateMetadataChangedTime(inode: Inode, lockId: Option<LockId>)
    | DecrementInode(inode: Inode, decrementCount: nat, lockId: Option<LockId>)

  datatype AccessType = ReadData | ReadMetadata | LockMetadata | WriteMetadata | WriteDataAndMetadata | NoAccess

  /** Where a message can be processed. */
  datatype Distribution = AnyNode | TransactionCoordinator | RaftGroup | SpecificNode

  datatype MetaInfo = MetaInfo(
    raftGroup: Option<nat>,
    inode: Option<Inode>,
    lockId: Option<LockId>,
    access: AccessType,
    distribution: Distribution)

  function MetaOf(r: Request): (m: MetaInfo) {
    if r.CreateInode? then MetaInfo(Some(r.raftGroup), None, None, WriteMetadata, RaftGroup)
    else if r.RemoveLink? || r.CreateLink? || r.ReplaceLink? then
      MetaInfo(None, Some(r.parent), r.lockId, WriteMetadata, RaftGroup)
    else if r.DecrementInode? || r.UpdateParent? || r.UpdateMetadataChangedTime? then
      MetaInfo(None, Some(r.inode), r.lockId, WriteMetadata, RaftGroup)
    else if r.Unlock? then MetaInfo(None, Some(r.inode), Some(r.heldId), NoAccess, RaftGroup)
    else
      var access := if r.Lock? then LockMetadata
                    else if r.Fsync? then NoAccess
                    else if r.Write? || r.Truncate? then WriteDataAndMetadata
                    else WriteMetadata;
      MetaInfo(None, Some(r.inode), None, access, RaftGroup)
  }

  /** The metadata a GetAttr-like reply carries. */
  datatype EntryMetadata = EntryMetadata(inode: Inode, attr: Attr, directoryEntries: Option<nat>)

  datatype Response =
    | Empty
    | InodeId(id: Inode)
    | Entry(metadata: EntryMetadata)
    | Written(bytesWritten: nat)
    | RemovedInode(id: Inode, complete: bool)
    | HardlinkTransaction(rollbackLastModified: Timestamp, attrs: EntryMetadata)
    | LockGranted(lockId: LockId)

  /** Why a replica stops: an assertion, an unwrap or an unsigned subtraction that fails. */
  datatype Panic =
    | LinkCountUnderflow
    | NoEntryToReplace
    | NonEmptyDirectoryDeleted
    | NotADirectory
    | RootInodeForbidden
    | MissingDataFile
    | UnexpectedRequest
    | CoordinatorAssertion

  datatype Outcome = Ok(response: Response) | Err(error: ErrorCode) | Panicked(cause: Panic)
}
