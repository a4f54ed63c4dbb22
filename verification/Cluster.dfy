/** All coordinators, clients and groups together, as a transition system.

    Every step is one request executed by its inode's group, or one read, and steps interleave
    arbitrarily.  The rows of all groups are held in one set of tables: by
    `Metadata.CommitReadsOnlyItsInode` a request cannot tell the difference. */
module Cluster {
  import opened Types
  import opened Metadata
  import opened Coordinator

  /** The replica or coordinator that stopped, and why. */
  datatype Crash = Crash(cause: Panic)

  datatype Sys = Sys(
    meta: Meta,
    next: map<nat, Inode>,          // the inode counter of each group
    locks: map<Inode, LockId>,
    txns: map<nat, Txn>,
    crash: Option<Crash>,
    spoiled: set<Inode>)            // history: the files of which an rmdir has given back two links

  datatype Label =
    | TxnStep(t: nat, now: Timestamp, newLock: LockId, choice: Inode)
    | Env(request: Request, now: Timestamp)
    | Begin(t: nat, txn: Txn)

  // ------------------------------------------------------------------ the lock discipline

  /** A request waits while another client has its inode locked.  One that carries a lock id never
      waits, nor does one that takes no access. */
  predicate MustWait(locks: map<Inode, LockId>, r: Request) {
    var m := MetaOf(r);
    m.inode.Some? && m.lockId.None? && m.access != NoAccess && m.inode.value in locks
  }

  /** The lock table asserts that a lock id it is shown is the one that is held. */
  predicate ShowsHeldLock(locks: map<Inode, LockId>, r: Request) {
    var m := MetaOf(r);
    m.inode.Some? && m.lockId.Some? ==> m.inode.value in locks && locks[m.inode.value] == m.lockId.value
  }

  /** Where transaction t is; one that has not begun has nothing to do. */
  function Now(s: Sys, t: nat): Txn { if t in s.txns then s.txns[t] else Finished(Success) }

  // ------------------------------------------------------------------ executing a request

  function TablesFor(s: Sys, r: Request): Meta {
    if r.CreateInode? && r.raftGroup in s.next then s.meta.(nextInode := s.next[r.raftGroup]) else s.meta
  }

  function Execute(s: Sys, r: Request, now: Timestamp): Step {
    CommitMeta(TablesFor(s, r), r, now)
  }

  function CountersAfter(s: Sys, r: Request, m: Meta): map<nat, Inode> {
    if r.CreateInode? && r.raftGroup in s.next then s.next[r.raftGroup := m.nextInode] else s.next
  }

  /** An rmdir is about to give back two links of a file. */
  predicate DropsFile(s: Sys, t: nat) {
    && t in s.txns && s.txns[t].RemovalDropping? && s.txns[t].job == RemoveDir
    && s.txns[t].inode in s.meta.attrs && s.meta.attrs[s.txns[t].inode].kind != Directory
  }

  /** What an rmdir gives back is two links, also of a file.  Nothing looks at this history. */
  function SpoiledAfter(s: Sys, t: nat): set<Inode> {
    if DropsFile(s, t) then s.spoiled + {s.txns[t].inode} else s.spoiled
  }

  function LookupOutcome(m: Meta, p: Inode, n: Name, c: UserContext): Outcome {
    match LookupEntry(m, p, n, c)
    case Found(Some(i)) => Ok(InodeId(i))
    case Found(None) => Err(DoesNotExist)
    case LookupFailed(e) => Err(e)
  }

  function Stopped(s: Sys, cause: Panic): Sys { s.(crash := Some(Crash(cause))) }

  function Continue(s: Sys, t: nat, next: Next): Sys {
    match next
    case Abort => Stopped(s, CoordinatorAssertion)
    case Go(txn) => s.(txns := s.txns[t := txn])
  }

  function ProposeStep(s: Sys, t: nat, r: Request, now: Timestamp, newLock: LockId, choice: Inode): Sys
    requires t in s.txns
  {
    if !ShowsHeldLock(s.locks, r) then Stopped(s, CoordinatorAssertion)
    else if r.Lock? then
      var next := Resume(s.txns[t], choice, Ok(LockGranted(newLock)));
      Continue(s.(locks := s.locks[r.inode := newLock]), t, next)
    else if r.Unlock? then
      var next := Resume(s.txns[t], choice, Ok(Empty));
      Continue(s.(locks := s.locks - {r.inode}), t, next)
    else
      var step := Execute(s, r, now);
      if step.outcome.Panicked? then Stopped(s, step.outcome.cause)
      else
        var next, counters := Resume(s.txns[t], choice, step.outcome), CountersAfter(s, r, step.meta);
        var spoiled := SpoiledAfter(s, t);
        Continue(s.(meta := step.meta, next := counters, spoiled := spoiled), t, next)
  }

  // ------------------------------------------------------------------ what the environment may do

  /** Requests that clients send directly to an inode's group. */
  predicate IsClientRequest(r: Request) {
    || r.Fsync? || r.Utimens? || r.SetXattr? || r.RemoveXattr? || r.Chmod? || r.Chown? || r.Truncate? || r.Write?
  }

  /** What the kernel has validated: directories are not hardlinked.  The kind of an inode never
      changes, so it does not matter when that was checked. */
  predicate KernelValidated(m: Meta, t: Txn) {
    t.HardlinkStart? && t.inode in m.attrs ==> m.attrs[t.inode].kind != Directory
  }

  predicate Enabled(s: Sys, l: Label) {
    && s.crash.None?
    && match l
       case TxnStep(t, _, _, choice) =>
         && t in s.txns
         && KernelValidated(s.meta, s.txns[t])
         && var a := ActionOf(s.txns[t], choice);
         && !a.Stop?
         && (a.Propose? ==> !MustWait(s.locks, a.request))
       case Env(r, _) => IsClientRequest(r) && !MustWait(s.locks, r)
       case Begin(t, txn) => t !in s.txns && IsStart(txn) && (txn.CreateStart? ==> txn.group in s.next)
  }

  /** The next state; a step that is not enabled is not taken. */
  function Apply(s: Sys, l: Label): Sys {
    if !Enabled(s, l) then s else
    match l
    case TxnStep(t, now, newLock, choice) =>
      var a := ActionOf(s.txns[t], choice);
      if a.Propose? then ProposeStep(s, t, a.request, now, newLock, choice)
      else
        var o := if a.ReadAttr? then GetAttributes(s.meta, a.inode)
                 else LookupOutcome(s.meta, a.parent, a.name, a.context);
        var next := Resume(s.txns[t], choice, o);
        Continue(s, t, next)
    case Env(r, now) =>
      var step := CommitMeta(s.meta, r, now);
      if step.outcome.Panicked? then Stopped(s, step.outcome.cause) else s.(meta := step.meta)
    case Begin(t, txn) => s.(txns := s.txns[t := txn])
  }

  // ------------------------------------------------------------------ runs

  ghost predicate ValidRun(s: Sys, labels: seq<Label>)
    decreases |labels|
  {
    labels == [] || (Enabled(s, labels[0]) && ValidRun(Apply(s, labels[0]), labels[1..]))
  }

  ghost function Run(s: Sys, labels: seq<Label>): Sys
    decreases |labels|
  {
    if labels == [] then s else Run(Apply(s, labels[0]), labels[1..])
  }
}
