/** What the lock table does over a whole log of commands. */
module LockRuns {
  import opened Types
  import opened Metadata
  import opened Cluster
  import opened LockTable
  import opened Sequences

  /** What happens to requests, in the order in which it takes effect. */
  datatype Event =
    | Executes(p: Pending)
    | Grants(p: Pending, inode: Inode, id: LockId)
    | Frees(p: Pending, inode: Inode)

  datatype Processed = Processed(table: Table, events: seq<Event>)

  function Executions(ps: seq<Pending>): (events: seq<Event>) {
    if ps == [] then [] else [Executes(ps[0])] + Executions(ps[1..])
  }

  /** The requests of a batch that are executed: all but a Lock at its end. */
  function Runs(batch: seq<Pending>): seq<Pending> {
    if EndsInLock(batch) then batch[..|batch| - 1] else batch
  }

  function UnlockEvents(t: Table, p: Pending, i: Inode): seq<Event> {
    var batch := Batch(t, i);
    [Frees(p, i)] + Executions(Runs(batch))
    + if EndsInLock(batch) then [Grants(batch[|batch| - 1], i, t.nextId)] else []
  }

  /** A delivered request: it waits, takes or frees a lock, or is executed.  None means that the
      table's assertion fails. */
  function Process(t: Table, p: Pending): Option<Processed> {
    var r, m := p.request, MetaOf(p.request);
    match Admit(t.lockIds, m)
    case Fail => None
    case Wait =>
      var i := m.inode.value;
      Some(Processed(t.(pending := t.pending[i := Queue(t, i) + [p]]), []))
    case Proceed =>
      if r.Lock? then Some(Processed(Granted(t, r.inode), [Grants(p, r.inode, t.nextId)]))
      else if r.Unlock? then Some(Processed(AfterUnlock(t, r.inode), UnlockEvents(t, p, r.inode)))
      else Some(Processed(t, [Executes(p)]))
  }

  function ProcessAll(t: Table, log: seq<Pending>): Option<Processed>
    decreases |log|
  {
    if log == [] then Some(Processed(t, []))
    else match Process(t, log[0])
      case None => None
      case Some(first) =>
        match ProcessAll(first.table, log[1..])
        case None => None
        case Some(rest) => Some(Processed(rest.table, first.events + rest.events))
  }

  // ------------------------------------------------------------------ well-formed tables

  /** The inode that a request may have to wait for. */
  function WaitsFor(p: Pending): Option<Inode> {
    var m := MetaOf(p.request);
    if m.lockId.None? && (m.access == LockMetadata || m.access == WriteMetadata || m.access == WriteDataAndMetadata)
    then m.inode else None
  }

  /** Only requests for a locked inode wait, each in its inode's queue; used lock ids are below nextId. */
  ghost predicate WellFormed(t: Table) {
    && (forall i: Inode :: Queue(t, i) != [] ==> i in t.lockIds)
    && (forall i: Inode, k :: 0 <= k < |Queue(t, i)| ==> WaitsFor(Queue(t, i)[k]) == Some(i))
    && (forall i :: i in t.lockIds ==> t.lockIds[i] < t.nextId)
  }

  lemma ProcessKeepsWellFormed(t: Table, p: Pending)
    requires WellFormed(t) && Process(t, p).Some?
    ensures WellFormed(Process(t, p).value.table)
  {
    hide BatchSize, UnlockEvents;
    var t' := Process(t, p).value.table;
    forall i: Inode
      ensures Queue(t', i) != [] ==> i in t'.lockIds
      ensures forall k :: 0 <= k < |Queue(t', i)| ==> WaitsFor(Queue(t', i)[k]) == Some(i)
    {
      if p.request.Unlock? && i == p.request.inode {
        assert Queue(t', i) == Queue(t, i)[BatchSize(Queue(t, i))..];
      }
    }
  }

  lemma {:induction false} ProcessAllKeepsWellFormed(t: Table, log: seq<Pending>)
    requires WellFormed(t) && ProcessAll(t, log).Some?
    ensures WellFormed(ProcessAll(t, log).value.table)
    decreases |log|
  {
    hide Process, WellFormed;
    if log != [] {
      ProcessKeepsWellFormed(t, log[0]);
      ProcessAllKeepsWellFormed(Process(t, log[0]).value.table, log[1..]);
    }
  }

  // ------------------------------------------------------------------ nothing is lost, and first come is first served

  function Served(events: seq<Event>): seq<Pending> {
    if events == [] then [] else [events[0].p] + Served(events[1..])
  }

  /** The requests that wait for a given inode, or for none. */
  function Only(ps: seq<Pending>, w: Option<Inode>): seq<Pending> {
    if ps == [] then [] else (if WaitsFor(ps[0]) == w then [ps[0]] else []) + Only(ps[1..], w)
  }

  lemma {:induction false} ServedConcat(a: seq<Event>, b: seq<Event>)
    ensures Served(a + b) == Served(a) + Served(b)
  {
    FirstAndRest(a, b);
    if a != [] {
      ServedConcat(a[1..], b);
      Associate([a[0].p], Served(a[1..]), Served(b));
    }
  }

  lemma {:induction false} OnlyConcat(a: seq<Pending>, b: seq<Pending>, w: Option<Inode>)
    ensures Only(a + b, w) == Only(a, w) + Only(b, w)
  {
    hide WaitsFor;
    FirstAndRest(a, b);
    if a != [] {
      OnlyConcat(a[1..], b, w);
      Associate(if WaitsFor(a[0]) == w then [a[0]] else [], Only(a[1..], w), Only(b, w));
    }
  }

  lemma {:induction false} OnlyWaiters(q: seq<Pending>, i: Inode, w: Option<Inode>)
    requires forall k :: 0 <= k < |q| ==> WaitsFor(q[k]) == Some(i)
    ensures Only(q, w) == if w == Some(i) then q else []
  {
    if q != [] {
      OnlyWaiters(q[1..], i, w);
    }
  }

  lemma {:induction false} ServedExecutions(ps: seq<Pending>)
    ensures Served(Executions(ps)) == ps
  {
    if ps != [] {
      assert ([Executes(ps[0])] + Executions(ps[1..]))[1..] == Executions(ps[1..]);
      ServedExecutions(ps[1..]);
    }
  }

  lemma UnlockServes(t: Table, p: Pending, i: Inode)
    ensures Served(UnlockEvents(t, p, i)) == [p] + Batch(t, i)
  {
    var batch := Batch(t, i);
    var last := if EndsInLock(batch) then [Grants(batch[|batch| - 1], i, t.nextId)] else [];
    ServedConcat([Frees(p, i)] + Executions(Runs(batch)), last);
    ServedConcat([Frees(p, i)], Executions(Runs(batch)));
    ServedExecutions(Runs(batch));
    assert Served([Frees(p, i)]) == [p];
    assert Served(last) == if EndsInLock(batch) then [batch[|batch| - 1]] else [];
  }

  /** One delivery: what waited before or comes in is served or waits after, in the same order. */
  ghost predicate Balances(t: Table, log: seq<Pending>, pr: Processed, w: Option<Inode>) {
    match w
    case Some(i) => Queue(t, i) + Only(log, w) == Only(Served(pr.events), w) + Queue(pr.table, i)
    case None => Only(log, w) == Only(Served(pr.events), w)
  }

  lemma UnlockBalances(t: Table, p: Pending, i: Inode, w: Option<Inode>)
    requires WellFormed(t) && p.request.Unlock? && p.request.inode == i
    ensures Balances(t, [p], Processed(AfterUnlock(t, i), UnlockEvents(t, p, i)), w)
  {
    hide BatchSize, UnlockEvents, Only, Served, AfterUnlock, Batch;
    UnlockServes(t, p, i);
    BatchWaits(t, i);
    var batch, q := Batch(t, i), Queue(t, i);
    OnlyConcat([p], batch, w);
    OnlyWaiters(batch, i, w);
    OnlyOne(p, w);
    if w.Some? {
      QueueAfterUnlock(t, i, w.value);
    }
  }

  lemma BatchWaits(t: Table, i: Inode)
    requires WellFormed(t)
    ensures forall k :: 0 <= k < |Batch(t, i)| ==> WaitsFor(Batch(t, i)[k]) == Some(i)
  {
    hide BatchSize, WaitsFor;
    forall k | 0 <= k < |Batch(t, i)|
      ensures WaitsFor(Batch(t, i)[k]) == Some(i)
    {
      assert Batch(t, i)[k] == Queue(t, i)[k];
    }
  }

  lemma QueueAfterUnlock(t: Table, i: Inode, j: Inode)
    ensures j != i ==> Queue(AfterUnlock(t, i), j) == Queue(t, j)
    ensures Queue(t, i) == Batch(t, i) + Queue(AfterUnlock(t, i), i)
  {
    hide BatchSize;
    assert Queue(t, i) == Batch(t, i) + Queue(t, i)[|Batch(t, i)|..];
  }

  lemma OnlyOne(p: Pending, w: Option<Inode>)
    ensures Only([p], w) == if WaitsFor(p) == w then [p] else []
  {}

  lemma ProcessBalances(t: Table, p: Pending, w: Option<Inode>)
    requires WellFormed(t) && Process(t, p).Some?
    ensures Balances(t, [p], Process(t, p).value, w)
  {
    hide AfterUnlock, UnlockEvents, Batch;
    OnlyOne(p, w);
    var pr := Process(t, p).value;
    if Admit(t.lockIds, MetaOf(p.request)) == Wait {
      assert Served(pr.events) == [];
    } else if p.request.Unlock? {
      UnlockBalances(t, p, p.request.inode, w);
    } else {
      assert Served(pr.events) == [p];
      if w.Some? {
        assert Queue(pr.table, w.value) == Queue(t, w.value);
      }
    }
  }

  lemma {:induction false} ProcessAllBalances(t: Table, log: seq<Pending>, w: Option<Inode>)
    requires WellFormed(t) && ProcessAll(t, log).Some?
    ensures Balances(t, log, ProcessAll(t, log).value, w)
    decreases |log|
  {
    hide Process, WellFormed;
    if log != [] {
      var first := Process(t, log[0]).value;
      var rest := ProcessAll(first.table, log[1..]).value;
      ProcessBalances(t, log[0], w);
      ProcessKeepsWellFormed(t, log[0]);
      ProcessAllBalances(first.table, log[1..], w);
      BalancesCompose(t, log, first, rest, w);
    }
  }

  lemma BalancesCompose(t: Table, log: seq<Pending>, first: Processed, rest: Processed, w: Option<Inode>)
    requires log != [] && Balances(t, [log[0]], first, w) && Balances(first.table, log[1..], rest, w)
    ensures Balances(t, log, Processed(rest.table, first.events + rest.events), w)
  {
    hide Only, Served, Queue;
    assert log == [log[0]] + log[1..];
    OnlyConcat([log[0]], log[1..], w);
    ServedConcat(first.events, rest.events);
    OnlyConcat(Served(first.events), Served(rest.events), w);
    if w.Some? {
      Reassociate(Queue(t, w.value), Only([log[0]], w), Only(log[1..], w), Only(Served(first.events), w),
                  Queue(first.table, w.value), Only(Served(rest.events), w), Queue(rest.table, w.value));
    }
  }

  lemma Reassociate<T>(q: seq<T>, a: seq<T>, b: seq<T>, s: seq<T>, q': seq<T>, s': seq<T>, q'': seq<T>)
    requires q + a == s + q' && q' + b == s' + q''
    ensures q + (a + b) == (s + s') + q''
  {
    Associate(q, a, b);
    Associate(s, q', b);
    Associate(s, s', q'');
  }

  /** First come, first served: of the requests that take access to an inode without holding its
      lock, those served are the first that were delivered, in the order of delivery, and the rest
      are its queue; all other requests are served as they are delivered. */
  lemma FirstComeFirstServed(log: seq<Pending>, i: Inode)
    requires ProcessAll(EMPTY, log).Some?
    ensures var pr := ProcessAll(EMPTY, log).value;
            && Only(log, Some(i)) == Only(Served(pr.events), Some(i)) + Queue(pr.table, i)
            && Only(log, None) == Only(Served(pr.events), None)
            && (Queue(pr.table, i) != [] ==> i in pr.table.lockIds)
  {
    hide ProcessAll;
    ProcessAllBalances(EMPTY, log, Some(i));
    ProcessAllBalances(EMPTY, log, None);
    ProcessAllKeepsWellFormed(EMPTY, log);
    assert Queue(EMPTY, i) + Only(log, Some(i)) == Only(log, Some(i));
  }

  lemma {:induction false} OnlyCounts(ps: seq<Pending>, p: Pending)
    ensures multiset(Only(ps, WaitsFor(p)))[p] == multiset(ps)[p]
  {
    if ps != [] {
      OnlyCounts(ps[1..], p);
      assert ps == [ps[0]] + ps[1..];
      assert multiset(ps)[p] == multiset([ps[0]])[p] + multiset(ps[1..])[p];
      var rest := Only(ps[1..], WaitsFor(p));
      assert multiset([ps[0]] + rest)[p] == multiset([ps[0]])[p] + multiset(rest)[p];
    }
  }

  /** Nothing is lost and nothing is done twice: every delivered command has been served, or is
      waiting, exactly as often as it was delivered. */
  lemma RequestsConserved(log: seq<Pending>, p: Pending)
    requires ProcessAll(EMPTY, log).Some?
    ensures var pr := ProcessAll(EMPTY, log).value;
            multiset(log)[p] == multiset(Served(pr.events))[p]
                                + if WaitsFor(p).Some? then multiset(Queue(pr.table, WaitsFor(p).value))[p] else 0
  {
    hide ProcessAll, WaitsFor, Queue;
    var pr := ProcessAll(EMPTY, log).value;
    OnlyCounts(log, p);
    OnlyCounts(Served(pr.events), p);
    FirstComeFirstServed(log, if WaitsFor(p).Some? then WaitsFor(p).value else 0);
  }

  // ------------------------------------------------------------------ a lock is a lock

  /** The locks after some events. */
  ghost function LocksAfter(locks: map<Inode, LockId>, events: seq<Event>): map<Inode, LockId>
    decreases |events|
  {
    if events == [] then locks
    else match events[0]
      case Executes(_) => LocksAfter(locks, events[1..])
      case Grants(_, i, id) => LocksAfter(locks[i := id], events[1..])
      case Frees(_, i) => LocksAfter(locks - {i}, events[1..])
  }

  /** What may happen next under the given locks: exactly what enables a step of the cluster. */
  ghost predicate Allowed(locks: map<Inode, LockId>, e: Event) {
    match e
    case Executes(p) =>
      !p.request.Lock? && !p.request.Unlock? && !MustWait(locks, p.request) && ShowsHeldLock(locks, p.request)
    case Grants(p, i, id) => p.request == Request.Lock(i) && i !in locks
    case Frees(p, i) => p.request.Unlock? && p.request.inode == i && i in locks && locks[i] == p.request.heldId
  }

  ghost predicate Legal(locks: map<Inode, LockId>, events: seq<Event>)
    decreases |events|
  {
    events == [] || (Allowed(locks, events[0]) && Legal(LocksAfter(locks, [events[0]]), events[1..]))
  }

  lemma {:induction false} LocksAfterConcat(locks: map<Inode, LockId>, a: seq<Event>, b: seq<Event>)
    ensures LocksAfter(locks, a + b) == LocksAfter(LocksAfter(locks, a), b)
    decreases |a|
  {
    FirstAndRest(a, b);
    if a != [] {
      match a[0]
      case Executes(_) => LocksAfterConcat(locks, a[1..], b);
      case Grants(_, i, id) => LocksAfterConcat(locks[i := id], a[1..], b);
      case Frees(_, i) => LocksAfterConcat(locks - {i}, a[1..], b);
    }
  }

  lemma {:induction false} LegalConcat(locks: map<Inode, LockId>, a: seq<Event>, b: seq<Event>)
    requires Legal(locks, a) && Legal(LocksAfter(locks, a), b)
    ensures Legal(locks, a + b)
    decreases |a|
  {
    hide Allowed;
    FirstAndRest(a, b);
    if a != [] {
      assert a == [a[0]] + a[1..];
      LocksAfterConcat(locks, [a[0]], a[1..]);
      LegalConcat(LocksAfter(locks, [a[0]]), a[1..], b);
    }
  }

  lemma {:induction false} ExecutionsLegal(locks: map<Inode, LockId>, ps: seq<Pending>, i: Inode)
    requires i !in locks
    requires forall k :: 0 <= k < |ps| ==> WaitsFor(ps[k]) == Some(i) && !ps[k].request.Lock?
    ensures Legal(locks, Executions(ps)) && LocksAfter(locks, Executions(ps)) == locks
    decreases |ps|
  {
    if ps != [] {
      assert Executions(ps)[1..] == Executions(ps[1..]);
      assert LocksAfter(locks, [Executes(ps[0])]) == locks;
      ExecutionsLegal(locks, ps[1..], i);
    }
  }

  lemma UnlockLegal(t: Table, p: Pending)
    requires WellFormed(t) && p.request.Unlock? && Admit(t.lockIds, MetaOf(p.request)) == Proceed
    ensures var i := p.request.inode;
            && Legal(t.lockIds, UnlockEvents(t, p, i))
            && LocksAfter(t.lockIds, UnlockEvents(t, p, i)) == AfterUnlock(t, i).lockIds
  {
    hide Legal, LocksAfter, Allowed, BatchSize;
    var i := p.request.inode;
    var batch, free := Batch(t, i), t.lockIds - {i};
    var last := if EndsInLock(batch) then [Grants(batch[|batch| - 1], i, t.nextId)] else [];
    OneFree(t.lockIds, p, i);
    ExecutionsLegal(free, Runs(batch), i);
    if EndsInLock(batch) {
      OneGrant(free, batch[|batch| - 1], i, t.nextId);
    } else {
      NoEvents(free);
    }
    LegalConcat(t.lockIds, [Frees(p, i)], Executions(Runs(batch)));
    LocksAfterConcat(t.lockIds, [Frees(p, i)], Executions(Runs(batch)));
    LegalConcat(t.lockIds, [Frees(p, i)] + Executions(Runs(batch)), last);
    LocksAfterConcat(t.lockIds, [Frees(p, i)] + Executions(Runs(batch)), last);
  }

  lemma OneFree(locks: map<Inode, LockId>, p: Pending, i: Inode)
    requires p.request.Unlock? && p.request.inode == i && i in locks && locks[i] == p.request.heldId
    ensures Legal(locks, [Frees(p, i)]) && LocksAfter(locks, [Frees(p, i)]) == locks - {i}
  {}

  lemma OneGrant(locks: map<Inode, LockId>, p: Pending, i: Inode, id: LockId)
    requires i !in locks && p.request == Request.Lock(i)
    ensures Legal(locks, [Grants(p, i, id)]) && LocksAfter(locks, [Grants(p, i, id)]) == locks[i := id]
  {}

  lemma NoEvents(locks: map<Inode, LockId>)
    ensures Legal(locks, []) && LocksAfter(locks, []) == locks
  {}

  lemma ProcessLegal(t: Table, p: Pending)
    requires WellFormed(t) && Process(t, p).Some?
    ensures Legal(t.lockIds, Process(t, p).value.events)
    ensures LocksAfter(t.lockIds, Process(t, p).value.events) == Process(t, p).value.table.lockIds
  {
    hide UnlockEvents, AfterUnlock;
    if p.request.Unlock? {
      UnlockLegal(t, p);
    }
  }

  /** Over any log, what the replica does is a legal history of locks: each inode is locked by one
      holder at a time, and while it is locked, requests that take access to it are executed only if
      they carry the holder's lock id. */
  lemma {:induction false} HistoryIsLegal(t: Table, log: seq<Pending>)
    requires WellFormed(t) && ProcessAll(t, log).Some?
    ensures Legal(t.lockIds, ProcessAll(t, log).value.events)
    ensures LocksAfter(t.lockIds, ProcessAll(t, log).value.events) == ProcessAll(t, log).value.table.lockIds
    decreases |log|
  {
    hide Process, WellFormed, Legal, LocksAfter;
    if log == [] {
      NoEvents(t.lockIds);
    } else {
      var first := Process(t, log[0]).value;
      var rest := ProcessAll(first.table, log[1..]).value;
      ProcessLegal(t, log[0]);
      ProcessKeepsWellFormed(t, log[0]);
      HistoryIsLegal(first.table, log[1..]);
      LegalConcat(t.lockIds, first.events, rest.events);
      LocksAfterConcat(t.lockIds, first.events, rest.events);
    }
  }

  /** In a legal history the rows of a locked inode change only through the holder of the lock. */
  lemma OnlyHolderChangesRows(locks: map<Inode, LockId>, p: Pending, m: Meta, now: Timestamp, i: Inode)
    requires Allowed(locks, Executes(p)) && i in locks && i in m.attrs && m.nextInode !in m.attrs
    requires !SameRows(m, CommitMeta(m, p.request, now).meta, i)
    ensures MetaOf(p.request).inode == Some(i) && MetaOf(p.request).lockId == Some(locks[i])
  {
    hide CommitMeta;
    if Target(m, p.request) != Some(i) {
      CommitChangesOnlyItsInode(m, p.request, now, i);
    } else if MetaOf(p.request).access == NoAccess {
      NoAccessNoChange(m, p.request, now);
    }
  }

  lemma NoAccessNoChange(m: Meta, r: Request, now: Timestamp)
    requires MetaOf(r).access == NoAccess
    ensures CommitMeta(m, r, now).meta == m
  {
    hide CommitOwner, CommitXattr, CommitLink, CommitInode;
  }

  // ------------------------------------------------------------------ lock ids

  function GrantedIds(events: seq<Event>): seq<LockId> {
    if events == [] then []
    else (if events[0].Grants? then [events[0].id] else []) + GrantedIds(events[1..])
  }

  lemma {:induction false} GrantedIdsConcat(a: seq<Event>, b: seq<Event>)
    ensures GrantedIds(a + b) == GrantedIds(a) + GrantedIds(b)
  {
    FirstAndRest(a, b);
    if a != [] {
      GrantedIdsConcat(a[1..], b);
      Associate(if a[0].Grants? then [a[0].id] else [], GrantedIds(a[1..]), GrantedIds(b));
    }
  }

  lemma {:induction false} ExecutionsGrantNothing(ps: seq<Pending>)
    ensures GrantedIds(Executions(ps)) == []
  {
    if ps != [] {
      assert Executions(ps)[1..] == Executions(ps[1..]);
      ExecutionsGrantNothing(ps[1..]);
    }
  }

  /** The numbers from a up to b. */
  function Span(a: nat, b: nat): (s: seq<nat>)
    requires a <= b
    ensures |s| == b - a && forall k :: 0 <= k < |s| ==> s[k] == a + k
  {
    seq(b - a, k requires 0 <= k => a + k)
  }

  lemma ProcessGrants(t: Table, p: Pending)
    requires Process(t, p).Some?
    ensures var pr := Process(t, p).value;
            t.nextId <= pr.table.nextId && GrantedIds(pr.events) == Span(t.nextId, pr.table.nextId)
  {
    hide BatchSize;
    if p.request.Unlock? && Admit(t.lockIds, MetaOf(p.request)) == Proceed {
      var i := p.request.inode;
      var batch := Batch(t, i);
      var last := if EndsInLock(batch) then [Grants(batch[|batch| - 1], i, t.nextId)] else [];
      GrantedIdsConcat([Frees(p, i)] + Executions(Runs(batch)), last);
      GrantedIdsConcat([Frees(p, i)], Executions(Runs(batch)));
      ExecutionsGrantNothing(Runs(batch));
      assert GrantedIds(last) == if EndsInLock(batch) then [t.nextId] else [];
    }
  }

  /** The lock ids granted over a log are 0, 1, 2 and so on: none is ever used again. */
  lemma {:induction false} LockIdsAreFresh(t: Table, log: seq<Pending>)
    requires ProcessAll(t, log).Some?
    ensures var pr := ProcessAll(t, log).value;
            t.nextId <= pr.table.nextId && GrantedIds(pr.events) == Span(t.nextId, pr.table.nextId)
    decreases |log|
  {
    hide Process;
    if log != [] {
      var first := Process(t, log[0]).value;
      var rest := ProcessAll(first.table, log[1..]).value;
      ProcessGrants(t, log[0]);
      LockIdsAreFresh(first.table, log[1..]);
      GrantedIdsConcat(first.events, rest.events);
    }
  }
}
