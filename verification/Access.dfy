/** Permission checks. */
module Access {
  import opened Types

  const X_OK: bv16 := 1
  const W_OK: bv16 := 2
  const R_OK: bv16 := 4
  const S_ISVTX: bv16 := 0x200
  const SETID_BITS: bv16 := 0xC00

  /** The three permission bits that apply to a caller: the owner's, the group's or the others'. */
  function ClassBits(fileUid: nat, fileGid: nat, fileMode: bv16, uid: nat, gid: nat): bv16 {
    if uid == fileUid then (fileMode >> 6) & 7
    else if gid == fileGid then (fileMode >> 3) & 7
    else fileMode & 7
  }

  /** Root may read and write everything and execute what anybody may execute; all others need each
      requested bit in the triple of their class. */
  predicate CheckAccess(fileUid: nat, fileGid: nat, fileMode: bv16, uid: nat, gid: nat, mask: bv16) {
    if uid == 0 then mask & X_OK == 0 || fileMode & 0x49 != 0
    else mask & !ClassBits(fileUid, fileGid, fileMode, uid, gid) == 0
  }

  /** The check as it is computed: granted bits are taken off the mask until none is left. */
  method CheckAccessStepwise(fileUid: nat, fileGid: nat, fileMode: bv16, uid: nat, gid: nat, mask: bv16)
    returns (granted: bool)
    requires mask <= 7
    ensures granted == CheckAccess(fileUid, fileGid, fileMode, uid, gid, mask)
  {
    if mask == 0 {
      return true;
    }
    var accessMask := mask;
    if uid == 0 {
      accessMask := accessMask & X_OK;
      accessMask := accessMask - (accessMask & (fileMode >> 6));
      accessMask := accessMask - (accessMask & (fileMode >> 3));
      accessMask := accessMask - (accessMask & fileMode);
      return accessMask == 0;
    }
    if uid == fileUid {
      accessMask := accessMask - (accessMask & (fileMode >> 6));
    } else if gid == fileGid {
      accessMask := accessMask - (accessMask & (fileMode >> 3));
    } else {
      accessMask := accessMask - (accessMask & fileMode);
    }
    granted := accessMask == 0;
  }

  predicate Allows(a: Attr, context: UserContext, mask: bv16) {
    CheckAccess(a.uid, a.gid, a.mode, context.uid, context.gid, mask)
  }

  predicate Sticky(a: Attr) {
    a.mode & S_ISVTX != 0
  }

  function WithoutSetId(mode: bv16): bv16 {
    mode & !SETID_BITS
  }

  datatype XattrNamespace = Security | System | Trusted | User

  /** The part of a key before its first dot. */
  function FirstPart(key: string): string {
    if key == "" || key[0] == '.' then "" else [key[0]] + FirstPart(key[1..])
  }

  function ParseXattrNamespace(key: string): Option<XattrNamespace> {
    match FirstPart(key)
    case "security" => Some(Security)
    case "system" => Some(System)
    case "trusted" => Some(Trusted)
    case "user" => Some(User)
    case _ => None
  }

  /** The error that denies access to an extended attribute, if any. */
  function XattrDenied(key: string, mask: bv16, a: Attr, context: UserContext): (denied: Option<ErrorCode>) {
    match ParseXattrNamespace(key)
    case None => Some(InvalidXattrNamespace)
    case Some(Security) => if mask != R_OK && context.uid != 0 then Some(OperationNotPermitted) else None
    case Some(Trusted) => if context.uid != 0 then Some(OperationNotPermitted) else None
    case Some(System) =>
      if key == "system.posix_acl_access" then
        if Allows(a, context, mask) then None else Some(OperationNotPermitted)
      else if context.uid != 0 then Some(OperationNotPermitted) else None
    case Some(User) => if Allows(a, context, mask) then None else Some(OperationNotPermitted)
  }
}
