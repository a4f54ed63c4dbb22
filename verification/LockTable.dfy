/** The table of inode locks, and the requests that wait for them. */
module LockTable {
  import opened Types
  import opened Cluster

  /** A request on its way: the command it came in, and whether a client of this node waits for its
      answer. */
  datatype Pending = Pending(command: nat, request: Request, reply: bool)

  datatype Table = Table(pending: map<Inode, seq<Pending>>, lockIds: map<Inode, LockId>, nextId: LockId)

  const EMPTY: Table := Table(map[], map[], 0)

  function Queue(t: Table, i: Inode): seq<Pending> {
    if i in t.pending then t.pending[i] else []
  }

  datatype Admission = Proceed | Wait | Fail

  /** Whether a request may go ahead.  It is a failed assertion to show a lock id that is not held,
      or to propose a read of a locked inode. */
  function Admit(locks: map<Inode, LockId>, m: MetaInfo): Admission {
    if m.inode.None? then Proceed
    else if m.lockId.Some? then
      if m.inode.value in locks && locks[m.inode.value] == m.lockId.value then Proceed else Fail
    else if m.inode.value !in locks then Proceed
    else match m.access
      case ReadData | ReadMetadata => Fail
      case LockMetadata | WriteMetadata | WriteDataAndMetadata => Wait
      case NoAccess => Proceed
  }

  /** How many of the waiting requests an unlock lets go: up to and including the next Lock. */
  function BatchSize(q: seq<Pending>): (n: nat)
    ensures n <= |q|
    ensures forall k :: 0 <= k < n - 1 ==> !q[k].request.Lock?
    ensures q != [] ==>
              n > 0 && (q[n - 1].request.Lock? || (n == |q| && forall k :: 0 <= k < |q| ==> !q[k].request.Lock?))
  {
    if q == [] then 0
    else if q[0].request.Lock? then 1
    else 1 + BatchSize(q[1..])
  }

  function Released(t: Table, i: Inode): Table { t.(lockIds := t.lockIds - {i}) }

  function Granted(t: Table, i: Inode): Table { t.(lockIds := t.lockIds[i := t.nextId], nextId := t.nextId + 1) }

  /** The requests an unlock lets go, and the table after it. */
  function Batch(t: Table, i: Inode): seq<Pending> { Queue(t, i)[..BatchSize(Queue(t, i))] }

  predicate EndsInLock(batch: seq<Pending>) { batch != [] && batch[|batch| - 1].request.Lock? }

  function AfterUnlock(t: Table, i: Inode): Table {
    var batch := Batch(t, i);
    var t' := if EndsInLock(batch) then Granted(Released(t, i), i) else Released(t, i);
    if i in t.pending then t'.(pending := t.pending[i := Queue(t, i)[|batch|..]]) else t'
  }

  // ------------------------------------------------------------------ the object

  class LockTable {
    var pendingRequests: map<Inode, seq<Pending>>
    var lockIds: map<Inode, LockId>
    var nextId: LockId

    function Value(): Table
      reads this
    {
      Table(pendingRequests, lockIds, nextId)
    }

    constructor ()
      ensures Value() == EMPTY
    {
      pendingRequests := map[];
      lockIds := map[];
      nextId := 0;
    }

    /** Whether another client has locked the inode. */
    method IsLocked(m: MetaInfo) returns (locked: bool)
      requires Admit(lockIds, m) != Fail
      ensures locked == (Admit(lockIds, m) == Wait)
    {
      if m.inode.None? {
        return false;
      }
      if m.lockId.Some? {
        return false;
      }
      if m.inode.value !in lockIds {
        return false;
      }
      return m.access == LockMetadata || m.access == WriteMetadata || m.access == WriteDataAndMetadata;
    }

    method WaitForLock(i: Inode, p: Pending)
      requires i in lockIds
      modifies this`pendingRequests
      ensures pendingRequests == old(pendingRequests)[i := old(Queue(Value(), i)) + [p]]
    {
      if i !in pendingRequests {
        pendingRequests := pendingRequests[i := []];
      }
      pendingRequests := pendingRequests[i := pendingRequests[i] + [p]];
    }

    method Lock(i: Inode) returns (id: LockId)
      requires i !in lockIds
      modifies this`lockIds, this`nextId
      ensures id == old(nextId) && Value() == Granted(old(Value()), i)
    {
      id := nextId;
      nextId := nextId + 1;
      lockIds := lockIds[i := id];
    }

    /** Lets go the waiting requests up to the next Lock, which gets the lock at once. */
    method Unlock(i: Inode, heldId: LockId) returns (requests: seq<Pending>, newId: Option<LockId>)
      requires i in lockIds && lockIds[i] == heldId
      modifies this
      ensures requests == Batch(old(Value()), i)
      ensures newId == if EndsInLock(requests) then Some(old(nextId)) else None
      ensures Value() == AfterUnlock(old(Value()), i)
    {
      lockIds := lockIds - {i};
      if i !in pendingRequests {
        return [], None;
      }
      newId := None;
      var queue := pendingRequests[i];
      var count := |queue|;
      var k := 0;
      while k < |queue|
        invariant 0 <= k <= |queue| && count == |queue| && newId == None
        invariant forall j :: 0 <= j < k ==> !queue[j].request.Lock?
        invariant BatchSize(queue) == k + BatchSize(queue[k..])
        invariant Value() == Released(old(Value()), i)
      {
        assert queue[k..][1..] == queue[k + 1..];
        if queue[k].request.Lock? {
          var id := Lock(i);
          newId := Some(id);
          count := k + 1;
          break;
        }
        k := k + 1;
      }
      requests := queue[..count];
      pendingRequests := pendingRequests[i := queue[count..]];
    }
  }
}
