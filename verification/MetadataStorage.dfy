/** The metadata store as an object: its tables, the inode counter, and the scans over key ranges. */
module MetadataStorage {
  import opened Striping
  import opened Types
  import opened Access
  import opened Metadata

  // ------------------------------------------------------------------ key ranges

  /** The order of names: character by character, a proper prefix first. */
  predicate NameLess(a: string, b: string) {
    b != "" && (a == "" || a[0] < b[0] || (a[0] == b[0] && NameLess(a[1..], b[1..])))
  }

  /** The order of keys in the database. */
  predicate KeyLess(a: (Inode, string), b: (Inode, string)) {
    a.0 < b.0 || (a.0 == b.0 && NameLess(a.1, b.1))
  }

  /** The half-open range from (inode, "") to (inode + 1, ""). */
  predicate InRange(k: (Inode, string), i: Inode) {
    !KeyLess(k, (i, "")) && KeyLess(k, (i + 1, ""))
  }

  /** It selects exactly the keys of that inode, whatever their names. */
  lemma RangeIsInode(k: (Inode, string), i: Inode)
    ensures InRange(k, i) <==> k.0 == i
  {}

  /** Drops all keys in the range of an inode, one by one. */
  method RetainNone<T>(table: map<(Inode, string), T>, i: Inode) returns (kept: map<(Inode, string), T>)
    ensures kept == map k | k in table && k.0 != i :: table[k]
  {
    kept := table;
    var keys := table.Keys;
    while keys != {}
      invariant keys <= table.Keys
      invariant forall k :: k in kept <==> k in table && (k in keys || k.0 != i)
      invariant forall k :: k in kept ==> kept[k] == table[k]
      decreases |keys|
    {
      var k :| k in keys;
      RangeIsInode(k, i);
      if InRange(k, i) {
        kept := kept - {k};
      }
      keys := keys - {k};
    }
  }

  /** Counts the keys in the range of an inode. */
  method CountRange<T>(table: map<(Inode, string), T>, i: Inode) returns (count: nat)
    ensures count == |set k | k in table && k.0 == i|
  {
    count := 0;
    var keys := table.Keys;
    ghost var seen: set<(Inode, string)> := {};
    while keys != {}
      invariant keys <= table.Keys
      invariant seen == set k | k in table && k !in keys && k.0 == i
      invariant count == |seen|
      decreases |keys|
    {
      var k :| k in keys;
      RangeIsInode(k, i);
      if InRange(k, i) {
        count := count + 1;
        seen := seen + {k};
      }
      keys := keys - {k};
    }
    assert seen == set k | k in table && k.0 == i;
  }

  // ------------------------------------------------------------------ the first inode of a group

  /** The first inode number above the root that belongs to the group. */
  ghost predicate IsStart(s: Inode, group: nat, n: nat)
    requires n > 0
  {
    && ROOT_INODE < s <= ROOT_INODE + n && s % n == group
    && forall i :: ROOT_INODE < i < s ==> i % n != group
  }

  /** One of any n consecutive numbers has a given residue. */
  lemma ResidueWithin(group: nat, n: nat) returns (s: Inode)
    requires group < n
    ensures ROOT_INODE < s <= ROOT_INODE + n && s % n == group
  {
    s := if group > ROOT_INODE then group else group + n;
    if group <= ROOT_INODE {
      DivModUnique(s, n, 1, group);
      if s <= ROOT_INODE {
        // a single group: n is 1
        s := s + n;
        DivModUnique(s, n, 2, group);
      }
    } else {
      DivModUnique(s, n, 0, group);
    }
  }

  // ------------------------------------------------------------------ the object

  class MetadataStorage {
    var db: Meta

    /** The search for the first inode ends within as many steps as there are groups. */
    constructor (group: nat, numGroups: nat, now: Timestamp)
      requires group < numGroups
      ensures db == InitialMeta(db.nextInode, numGroups, now)
      ensures IsStart(db.nextInode, group, numGroups)
    {
      ghost var found := ResidueWithin(group, numGroups);
      var startInode := ROOT_INODE + 1;
      while startInode % numGroups != group
        invariant ROOT_INODE < startInode <= found
        invariant forall i :: ROOT_INODE < i < startInode ==> i % numGroups != group
        decreases found - startInode
      {
        startInode := startInode + 1;
      }
      db := InitialMeta(startInode, numGroups, now);
    }

    /** The counter moves on by the number of groups. */
    method AllocateInode() returns (i: Inode)
      modifies this
      ensures i == old(db.nextInode) && db == old(db).(nextInode := i + old(db).numGroups)
    {
      i := db.nextInode;
      db := db.(nextInode := i + db.numGroups);
    }

    method CreateInode(parent: Inode, uid: nat, gid: nat, mode: bv16, kind: FileKind, now: Timestamp)
    returns (o: Outcome)
      modifies this
      ensures Step(db, o) == CreateInodeStep(old(db), parent, uid, gid, mode, kind, now)
    {
      var i := AllocateInode();
      var size := if kind == Directory then BLOCK_SIZE else 0;
      var hardlinks := if kind == Directory then 2 else 1;
      var a := Attr(size, now, now, now, kind, WithoutSetId(mode), hardlinks, uid, gid);
      db := db.(attrs := db.attrs[i := a]);
      if kind == Directory {
        db := db.(parents := db.parents[i := parent]);
      }
      o := Ok(Entry(EntryMetadata(i, a, if kind == Directory then Some(0) else None)));
    }

    /** Answers also with the inode whose data must go. */
    method DecrementInodeLinkCount(i: Inode, count: nat, now: Timestamp) returns (o: Outcome, deleted: Option<Inode>)
      modifies this
      ensures Step(db, o) == DecrementStep(old(db), i, count, now)
      ensures deleted == if o.Ok? && i in old(db.attrs) && i !in db.attrs && old(db.attrs[i].kind) != Directory
                         then Some(i) else None
    {
      if i !in db.attrs {
        return Err(InodeDoesNotExist), None;
      }
      var a := db.attrs[i];
      if a.hardlinks < count {
        return Panicked(LinkCountUnderflow), None;
      }
      a := a.(hardlinks := a.hardlinks - count, lastMetadataChanged := now);
      if a.hardlinks != 0 {
        db := db.(attrs := db.attrs[i := a]);
        return Ok(Empty), None;
      }
      var xattrs := RetainNone(db.xattrs, i);
      if a.kind == Directory {
        var entries := CountRange(db.dir, i);
        if entries > 0 {
          return Panicked(NonEmptyDirectoryDeleted), None;
        }
        db := db.(attrs := db.attrs - {i}, xattrs := xattrs, parents := db.parents - {i});
        return Ok(Empty), None;
      }
      db := db.(attrs := db.attrs - {i}, xattrs := xattrs);
      return Ok(Empty), Some(i);
    }

    method Lookup(parent: Inode, name: Name, context: UserContext) returns (r: LookupResult)
      ensures r == LookupEntry(db, parent, name, context)
    {
      if |name| > MAX_NAME_LENGTH {
        return LookupFailed(NameTooLong);
      }
      if parent !in db.attrs {
        return LookupFailed(InodeDoesNotExist);
      }
      if !Allows(db.attrs[parent], context, X_OK) {
        return LookupFailed(AccessDenied);
      }
      if (parent, name) in db.dir {
        return Found(Some(db.dir[(parent, name)].inode));
      }
      return Found(None);
    }

    method Stamp(parent: Inode, now: Timestamp)
      requires parent in db.attrs
      modifies this
      ensures db == StampDirectory(old(db), parent, now)
    {
      var a := db.attrs[parent].(lastModified := now);
      a := a.(lastMetadataChanged := now);
      db := db.(attrs := db.attrs[parent := a]);
    }

    method CreateLink(i: Inode, parent: Inode, name: Name, context: UserContext, kind: FileKind, now: Timestamp)
      returns (o: Outcome)
      modifies this
      ensures Step(db, o) == CreateLinkStep(old(db), i, parent, name, context, kind, now)
    {
      var existing := Lookup(parent, name, context);
      if existing.LookupFailed? {
        return Err(existing.error);
      }
      if existing.inode.Some? {
        return Err(AlreadyExists);
      }
      if !Allows(db.attrs[parent], context, W_OK) {
        return Err(AccessDenied);
      }
      Stamp(parent, now);
      db := db.(dir := db.dir[(parent, name) := Link(i, kind)]);
      o := Ok(Empty);
    }

    method ReplaceLink(parent: Inode, name: Name, newInode: Inode, kind: FileKind, context: UserContext, now: Timestamp)
      returns (o: Outcome)
      modifies this
      ensures Step(db, o) == ReplaceLinkStep(old(db), parent, name, newInode, kind, context, now)
    {
      if parent !in db.attrs {
        return Err(InodeDoesNotExist);
      }
      if !Allows(db.attrs[parent], context, W_OK) {
        return Err(AccessDenied);
      }
      if (parent, name) !in db.dir {
        return Panicked(NoEntryToReplace);
      }
      var replaced := db.dir[(parent, name)].inode;
      Stamp(parent, now);
      db := db.(dir := db.dir[(parent, name) := Link(newInode, kind)]);
      o := Ok(InodeId(replaced));
    }

    method RemoveLink(parent: Inode, name: Name, known: Option<InodeUidPair>, context: UserContext, now: Timestamp)
      returns (o: Outcome)
      modifies this
      ensures Step(db, o) == RemoveLinkStep(old(db), parent, name, known, context, now)
    {
      if parent !in db.attrs {
        return Err(InodeDoesNotExist);
      }
      if (parent, name) !in db.dir {
        return Err(DoesNotExist);
      }
      var p, target := db.attrs[parent], db.dir[(parent, name)].inode;
      if known.Some? && known.value.inode != target {
        return Ok(RemovedInode(target, false));
      }
      if !Allows(p, context, W_OK) {
        return Err(AccessDenied);
      }
      if Sticky(p) && context.uid != p.uid && context.uid != 0 {
        if known.None? {
          return Ok(RemovedInode(target, false));
        }
        if context.uid != known.value.uid {
          return Err(AccessDenied);
        }
      }
      Stamp(parent, now);
      db := db.(dir := db.dir - {(parent, name)});
      o := Ok(RemovedInode(target, true));
    }

    /** All other requests rewrite one row. */
    method Update(r: Request, now: Timestamp) returns (o: Outcome)
      requires !r.CreateInode? && !r.DecrementInode? && !IsLinkRequest(r)
      modifies this
      ensures Step(db, o) == CommitMeta(old(db), r, now)
    {
      var step := CommitMeta(db, r, now);
      db := step.meta;
      o := step.outcome;
    }

    method NonDirectoryInodes() returns (inodes: set<Inode>)
      ensures forall i :: i in inodes <==> i in db.attrs && db.attrs[i].kind != Directory
    {
      inodes := {};
      var keys := db.attrs.Keys;
      while keys != {}
        invariant keys <= db.attrs.Keys
        invariant forall i :: i in inodes <==> i in db.attrs && i !in keys && db.attrs[i].kind != Directory
        decreases |keys|
      {
        var i :| i in keys;
        if db.attrs[i].kind != Directory {
          inodes := inodes + {i};
        }
        keys := keys - {i};
      }
    }
  }
}
