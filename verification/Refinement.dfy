/** Every run of the deployed system is a run of the cluster.

    So what is proved of the cluster, whose steps interleave arbitrarily over one set of tables and one
    set of locks, holds of groups that each serve their own log, with requests parked, drained and
    handed the lock by the lock table. */
module Refinement {
  import opened Types
  import opened Metadata
  import opened Coordinator
  import opened Cluster
  import opened ClusterRuns
  import opened Locks = LockTable
  import opened LockRuns
  import opened Deployment
  import Safety

  // ------------------------------------------------------------------ the invariant

  ghost predicate Attended(c: System) { forall id :: id in c.issued ==> Awaits(c, id) }

  predicate SameTransaction(a: Party, b: Party) { a.ByTransaction? && b.ByTransaction? && a.t == b.t }

  /** A transaction waits for one command at a time. */
  ghost predicate OneEach(c: System) {
    forall id, id' :: id in c.issued && id' in c.issued && id != id' ==>
      !SameTransaction(c.issued[id].party, c.issued[id'].party)
  }

  /** Someone waits for this request. */
  predicate IsIssued(c: System, p: Pending) { p.command in c.issued && c.issued[p.command].request == p.request }

  ghost predicate TablesOk(c: System) { forall g :: 0 <= g < |c.tables| ==> WellFormed(c.tables[g]) }

  /** What is parked is parked at home, is still awaited, and is parked once. */
  ghost predicate ParkedOk(c: System) {
    && (forall g, i: Inode, k :: 0 <= g < |c.tables| && 0 <= k < |Queue(c.tables[g], i)| ==>
          IsIssued(c, Queue(c.tables[g], i)[k]) && i % |c.tables| == g)
    && (forall g, i: Inode, k, l :: 0 <= g < |c.tables| && 0 <= k < l < |Queue(c.tables[g], i)| ==>
          Queue(c.tables[g], i)[k].command != Queue(c.tables[g], i)[l].command)
  }

  ghost predicate SystemOk(c: System) {
    |c.tables| == |c.metas| > 0 && Attended(c) && OneEach(c) && TablesOk(c) && ParkedOk(c)
  }

  ghost predicate IsParked(c: System, id: nat) {
    exists g, i: Inode, k ::
      0 <= g < |c.tables| && 0 <= k < |Queue(c.tables[g], i)| && Queue(c.tables[g], i)[k].command == id
  }

  // ------------------------------------------------------------------ the events of one delivery

  ghost function TakeAll(c: System, g: nat, events: seq<Event>, now: Timestamp): (c': System)
    requires g < |c.tables| == |c.metas|
    decreases |events|
  {
    if events == [] || c.stopped then c
    else
      TakeKeepsShape(c, g, events[0], now);
      TakeAll(Take(c, g, events[0], now), g, events[1..], now)
  }

  ghost function LabelsOf(c: System, g: nat, events: seq<Event>, now: Timestamp): seq<Label>
    requires g < |c.tables| == |c.metas|
    decreases |events|
  {
    if events == [] || c.stopped then []
    else
      TakeKeepsShape(c, g, events[0], now);
      [LabelOf(c, events[0], now)] + LabelsOf(Take(c, g, events[0], now), g, events[1..], now)
  }

  /** Whenever a hardlink is executed, the kernel has checked its inode. */
  ghost predicate AllVetted(c: System, g: nat, events: seq<Event>, now: Timestamp)
    requires g < |c.tables| == |c.metas|
    decreases |events|
  {
    if events == [] || c.stopped then true
    else
      TakeKeepsShape(c, g, events[0], now);
      Vetted(c, g, events[0]) && AllVetted(Take(c, g, events[0], now), g, events[1..], now)
  }

  lemma TakeKeepsShape(c: System, g: nat, e: Event, now: Timestamp)
    requires g < |c.tables| == |c.metas|
    ensures var c' := Take(c, g, e, now);
            && |c'.tables| == |c.tables| == |c'.metas|
            && (e.p.command in c.issued ==>
                  && c'.tables == c.tables[g := c.tables[g].(lockIds := LocksAfter(c.tables[g].lockIds, [e]))]
                  && c'.issued == c.issued - {e.p.command})
  {
    hide CommitMeta, Resume, LocksAfter;
  }

  /** The events are all awaited, at home here, and of different commands. */
  ghost predicate EventsOk(c: System, g: nat, events: seq<Event>)
    requires |c.tables| > 0
  {
    && (forall k :: 0 <= k < |events| ==> IsIssued(c, events[k].p) && Home(|c.tables|, events[k].p.request) == Some(g))
    && (forall j, k :: 0 <= j < k < |events| ==> events[j].p.command != events[k].p.command)
  }

  lemma TakeKeepsOthers(c: System, g: nat, e: Event, now: Timestamp)
    requires g < |c.tables| == |c.metas| && Attended(c) && OneEach(c) && e.p.command in c.issued
    ensures Attended(Take(c, g, e, now)) && OneEach(Take(c, g, e, now))
  {
    hide CommitMeta, Resume, LocksAfter, ActionOf, Home;
    var c' := Take(c, g, e, now);
    TakeKeepsShape(c, g, e, now);
    forall id | id in c'.issued
      ensures Awaits(c', id)
    {
      assert Awaits(c, id);
    }
  }

  lemma RestOk(c: System, g: nat, events: seq<Event>, now: Timestamp)
    requires g < |c.tables| == |c.metas| && events != [] && EventsOk(c, g, events)
    ensures |Take(c, g, events[0], now).tables| > 0 && EventsOk(Take(c, g, events[0], now), g, events[1..])
  {
    hide Take, Home;
    TakeKeepsShape(c, g, events[0], now);
  }

  function Commands(events: seq<Event>): set<nat> { set k | 0 <= k < |events| :: events[k].p.command }

  lemma LegalFirst(locks: map<Inode, LockId>, events: seq<Event>)
    requires events != []
    ensures Legal(locks, events) ==> Allowed(locks, events[0]) && Legal(LocksAfter(locks, [events[0]]), events[1..])
    ensures LocksAfter(locks, events) == LocksAfter(LocksAfter(locks, [events[0]]), events[1..])
  {
    assert [events[0]][1..] == [];
  }

  /** The events of a delivery are steps of the cluster, one each. */
  lemma {:induction false} EventsMatch(c: System, s: Sys, g: nat, events: seq<Event>, now: Timestamp)
    requires Matches(c, s) && g < |c.tables| && Attended(c) && OneEach(c) && EventsOk(c, g, events)
    requires Legal(c.tables[g].lockIds, events) && AllVetted(c, g, events, now)
    ensures ValidRun(s, LabelsOf(c, g, events, now))
    ensures Matches(TakeAll(c, g, events, now), Run(s, LabelsOf(c, g, events, now)))
    ensures var c' := TakeAll(c, g, events, now);
            !c'.stopped ==>
              && Attended(c') && OneEach(c') && |c'.metas| == |c.metas| && c'.issued == c.issued - Commands(events)
              && c'.tables == c.tables[g := c.tables[g].(lockIds := LocksAfter(c.tables[g].lockIds, events))]
    decreases |events|
  {
    hide RowsMatch, CountersMatch, LocksMatch, Attended, OneEach, EventsOk, Legal, LocksAfter, Vetted, Take, Awaits,
         Enabled, Apply, LabelOf;
    if events == [] {
      assert LocksAfter(c.tables[g].lockIds, events) == c.tables[g].lockIds by { NoEvents(c.tables[g].lockIds); }
      assert c.tables[g := c.tables[g].(lockIds := c.tables[g].lockIds)] == c.tables;
      assert c.issued - Commands(events) == c.issued;
    } else if !c.stopped {
      var e, c1 := events[0], Take(c, g, events[0], now);
      TakeKeepsShape(c, g, e, now);
      LegalFirst(c.tables[g].lockIds, events);
      FirstAwaited(c, g, events);
      EventMatches(c, s, g, e, now);
      TakeKeepsOthers(c, g, e, now);
      RestOk(c, g, events, now);
      EventsMatch(c1, Apply(s, LabelOf(c, e, now)), g, events[1..], now);
      FirstStep(s, LabelOf(c, e, now), LabelsOf(c1, g, events[1..], now));
      assert Commands(events) == {e.p.command} + Commands(events[1..]) by { FirstCommand(events); }
      assert c.issued - {e.p.command} - Commands(events[1..]) == c.issued - ({e.p.command} + Commands(events[1..]));
    }
  }

  lemma FirstCommand(events: seq<Event>)
    requires events != []
    ensures Commands(events) == {events[0].p.command} + Commands(events[1..])
  {
    forall id
      ensures id in Commands(events) <==> id in {events[0].p.command} + Commands(events[1..])
    {
      if id in Commands(events) && id != events[0].p.command {
        var k :| 0 <= k < |events| && events[k].p.command == id;
        assert events[1..][k - 1].p.command == id;
      }
    }
  }

  lemma FirstAwaited(c: System, g: nat, events: seq<Event>)
    requires |c.tables| > 0 && events != [] && EventsOk(c, g, events) && Attended(c)
    ensures IsIssued(c, events[0].p) && Awaits(c, events[0].p.command)
    ensures Home(|c.tables|, events[0].p.request) == Some(g)
  {
    hide Home, Awaits;
  }

  // ------------------------------------------------------------------ a delivery

  /** The request as the lock table gets it. */
  function Arrival(c: System, id: nat): Pending
    requires id in c.issued
  {
    Pending(id, c.issued[id].request, true)
  }

  function HomeOf(c: System, id: nat): nat
    requires Awaits(c, id)
  {
    Home(|c.tables|, c.issued[id].request).value
  }

  /** The arrival has been queued, or what it lets go is about to happen. */
  function Opened(c: System, id: nat): System
    requires Awaits(c, id) && Process(c.tables[HomeOf(c, id)], Arrival(c, id)).Some?
  {
    var g := HomeOf(c, id);
    c.(tables := c.tables[g := Process(c.tables[g], Arrival(c, id)).value.table.(lockIds := c.tables[g].lockIds)])
  }

  /** A decided command reaches the lock table of its group: it fails the table's assertion, or it is
      parked, or it and what it lets go take effect. */
  ghost function Delivered(c: System, id: nat, now: Timestamp): System {
    if |c.metas| != |c.tables| || !Awaits(c, id) then c else
    var g := HomeOf(c, id);
    match Process(c.tables[g], Arrival(c, id))
    case None => c.(stopped := true)
    case Some(pr) => TakeAll(Opened(c, id), g, pr.events, now)
  }

  ghost function DeliveryLabels(c: System, id: nat, now: Timestamp): seq<Label> {
    if |c.metas| != |c.tables| || !Awaits(c, id) then [] else
    var g := HomeOf(c, id);
    match Process(c.tables[g], Arrival(c, id))
    case None => [LabelOf(c, Executes(Arrival(c, id)), now)]
    case Some(pr) => LabelsOf(Opened(c, id), g, pr.events, now)
  }

  ghost predicate DeliveryVetted(c: System, id: nat, now: Timestamp) {
    |c.metas| == |c.tables| && Awaits(c, id) ==>
    var g := HomeOf(c, id);
    match Process(c.tables[g], Arrival(c, id))
    case None => true
    case Some(pr) => AllVetted(Opened(c, id), g, pr.events, now)
  }

  /** A transaction proposes no reads, and shows no lock id when it starts a hardlink. */
  lemma Proposals(t: Txn, choice: Inode)
    requires ActionOf(t, choice).Propose?
    ensures var m := MetaOf(ActionOf(t, choice).request);
            m.access != ReadData && m.access != ReadMetadata && (m.lockId.Some? ==> !t.HardlinkStart?)
  {}

  lemma FailureMatches(c: System, s: Sys, id: nat, now: Timestamp)
    requires Matches(c, s) && !c.stopped && Awaits(c, id) && Process(c.tables[HomeOf(c, id)], Arrival(c, id)).None?
    ensures var l := LabelOf(c, Executes(Arrival(c, id)), now);
            Enabled(s, l) && Matches(c.(stopped := true), Apply(s, l))
  {
    hide RowsMatch, CountersMatch, LocksMatch, Resume, ActionOf, Cluster.Execute, UnlockEvents, Locks.AfterUnlock;
    var g, r, party := HomeOf(c, id), c.issued[id].request, c.issued[id].party;
    SameAdmission(c.tables, s.locks, g, r);
    assert party.ByTransaction?;
    Proposals(c.txns[party.t], party.choice);
  }

  /** What a delivery lets go was awaited, and is different from what stays parked. */
  lemma LetGo(c: System, id: nat)
    requires SystemOk(c) && id in c.issued && Awaits(c, id) && !IsParked(c, id)
    requires Process(c.tables[HomeOf(c, id)], Arrival(c, id)).Some?
    ensures EventsOk(Opened(c, id), HomeOf(c, id), Process(c.tables[HomeOf(c, id)], Arrival(c, id)).value.events)
  {
    hide Process, Attended, OneEach, ParkedOk, Home, WellFormed;
    var g, p := HomeOf(c, id), Arrival(c, id);
    var events := Process(c.tables[g], p).value.events;
    EventsServe(c.tables[g], p);
    forall k | 0 <= k < |events|
      ensures IsIssued(c, events[k].p) && Home(|c.tables|, events[k].p.request) == Some(g)
    {
      if events[k].p != p {
        var queue := Queue(c.tables[g], p.request.inode);
        var j :| 0 <= j < |queue| && queue[j] == events[k].p;
        QueuedAt(c, g, p.request.inode, j);
      }
    }
    forall j, k | 0 <= j < k < |events|
      ensures events[j].p.command != events[k].p.command
    {
      DifferentEvents(c, g, p, j, k);
    }
  }

  lemma QueuedAt(c: System, g: nat, i: Inode, k: nat)
    requires SystemOk(c) && g < |c.tables| && k < |Queue(c.tables[g], i)|
    ensures IsIssued(c, Queue(c.tables[g], i)[k]) && i % |c.tables| == g
    ensures Home(|c.tables|, Queue(c.tables[g], i)[k].request) == Some(g)
    ensures MetaOf(Queue(c.tables[g], i)[k].request).inode == Some(i)
  {
    hide Attended, OneEach;
    assert WellFormed(c.tables[g]);
    assert WaitsFor(Queue(c.tables[g], i)[k]) == Some(i);
  }

  /** The events of a delivery: that of the arrival, and those of the head of its queue. */
  lemma EventsServe(t: Table, p: Pending)
    requires Process(t, p).Some?
    ensures var events := Process(t, p).value.events;
            && (p.request.Unlock? ==>
                  && |events| == 1 + |Batch(t, p.request.inode)| && events[0].p == p
                  && forall k :: 0 < k < |events| ==> events[k].p == Queue(t, p.request.inode)[k - 1])
            && (!p.request.Unlock? ==> |events| <= 1 && forall k :: 0 <= k < |events| ==> events[k].p == p)
  {
    hide BatchSize, Locks.AfterUnlock;
    if p.request.Unlock? {
      var i := p.request.inode;
      UnlockServes(t, p, i);
      ServedIs(UnlockEvents(t, p, i));
    }
  }

  lemma {:induction false} ServedIs(events: seq<Event>)
    ensures |Served(events)| == |events| && forall k :: 0 <= k < |events| ==> Served(events)[k] == events[k].p
  {
    if events != [] {
      ServedIs(events[1..]);
    }
  }

  lemma DifferentEvents(c: System, g: nat, p: Pending, j: nat, k: nat)
    requires SystemOk(c) && g < |c.tables| && Process(c.tables[g], p).Some? && !IsParked(c, p.command)
    requires j < k < |Process(c.tables[g], p).value.events|
    ensures Process(c.tables[g], p).value.events[j].p.command != Process(c.tables[g], p).value.events[k].p.command
  {
    hide Process, Attended, OneEach, TablesOk, BatchSize;
    EventsServe(c.tables[g], p);
    var events, i := Process(c.tables[g], p).value.events, p.request.inode;
    assert |Batch(c.tables[g], i)| <= |Queue(c.tables[g], i)|;
    if j == 0 {
      assert Queue(c.tables[g], i)[k - 1].command != p.command;
    } else {
      assert Queue(c.tables[g], i)[j - 1].command != Queue(c.tables[g], i)[k - 1].command;
    }
  }

  /** The queues after a delivery. */
  lemma QueueAfter(t: Table, p: Pending, i: Inode)
    requires Process(t, p).Some?
    ensures var pr := Process(t, p).value;
            Queue(pr.table, i) ==
            if p.request.Unlock? && i == p.request.inode then Queue(t, i)[|Batch(t, i)|..]
            else if pr.events == [] && MetaOf(p.request).inode == Some(i) then Queue(t, i) + [p]
            else Queue(t, i)
  {
    hide BatchSize, UnlockEvents;
    if p.request.Unlock? {
      assert UnlockEvents(t, p, p.request.inode) != [] by { UnlockServes(t, p, p.request.inode); }
      QueueAfterUnlock(t, p.request.inode, i);
    }
  }

  /** After a delivery at group g, what stays parked in a queue there is still awaited. */
  lemma StaysParked(c: System, id: nat, i: Inode, k: nat)
    requires SystemOk(c) && id in c.issued && Awaits(c, id) && !IsParked(c, id)
    requires Process(c.tables[HomeOf(c, id)], Arrival(c, id)).Some?
    requires k < |Queue(Process(c.tables[HomeOf(c, id)], Arrival(c, id)).value.table, i)|
    ensures var g, pr := HomeOf(c, id), Process(c.tables[HomeOf(c, id)], Arrival(c, id)).value;
            var q := Queue(pr.table, i)[k];
            IsIssued(c, q) && i % |c.tables| == g && q.command !in Commands(pr.events)
  {
    hide Process, Attended, OneEach, TablesOk, ParkedOk, Batch, Commands;
    var g, p := HomeOf(c, id), Arrival(c, id);
    var t, pr := c.tables[g], Process(c.tables[g], p).value;
    var q := Queue(pr.table, i)[k];
    QueueAfter(t, p, i);
    EventsServe(t, p);
    if p.request.Unlock? && i == p.request.inode {
      BatchInQueue(t, i);
      QueuedAt(c, g, i, |Batch(t, i)| + k);
      NotInBatch(c, g, p, i, |Batch(t, i)| + k);
    } else if k < |Queue(t, i)| {
      QueuedAt(c, g, i, k);
      NotLetGo(c, g, p, i, k);
    } else {
      assert q == p && pr.events == [];
      assert q.command !in Commands(pr.events) by { NoCommands(); }
    }
  }

  lemma NoCommands()
    ensures Commands([]) == {}
  {}

  /** The rest of the queue is not in its head. */
  lemma NotInBatch(c: System, g: nat, p: Pending, i: Inode, k: nat)
    requires SystemOk(c) && g < |c.tables| && Process(c.tables[g], p).Some? && !IsParked(c, p.command)
    requires p.request.Unlock? && i == p.request.inode && |Batch(c.tables[g], i)| <= k < |Queue(c.tables[g], i)|
    ensures Queue(c.tables[g], i)[k].command !in Commands(Process(c.tables[g], p).value.events)
  {
    hide Process, Attended, OneEach, TablesOk, Batch;
    EventsServe(c.tables[g], p);
    var events := Process(c.tables[g], p).value.events;
    forall m | 0 <= m < |events|
      ensures events[m].p.command != Queue(c.tables[g], i)[k].command
    {
      if m > 0 {
        assert Queue(c.tables[g], i)[m - 1].command != Queue(c.tables[g], i)[k].command;
      }
    }
  }

  /** What waits for another inode is not let go. */
  lemma NotLetGo(c: System, g: nat, p: Pending, i: Inode, k: nat)
    requires SystemOk(c) && g < |c.tables| && Process(c.tables[g], p).Some? && !IsParked(c, p.command)
    requires k < |Queue(c.tables[g], i)| && !(p.request.Unlock? && i == p.request.inode)
    ensures Queue(c.tables[g], i)[k].command !in Commands(Process(c.tables[g], p).value.events)
  {
    hide Process, Attended, OneEach, TablesOk, ParkedOk, Batch;
    EventsServe(c.tables[g], p);
    var events := Process(c.tables[g], p).value.events;
    QueuedAt(c, g, i, k);
    forall m | 0 <= m < |events|
      ensures events[m].p.command != Queue(c.tables[g], i)[k].command
    {
      if events[m].p != p {
        BatchInQueue(c.tables[g], p.request.inode);
        QueuedAt(c, g, p.request.inode, m - 1);
      }
    }
  }

  lemma BatchInQueue(t: Table, i: Inode)
    ensures |Batch(t, i)| <= |Queue(t, i)|
  {
    hide BatchSize;
  }

  /** The parts of the invariant that a delivery must restore. */
  lemma StillParkedOk(c: System, id: nat, c': System)
    requires SystemOk(c) && id in c.issued && Awaits(c, id) && !IsParked(c, id)
    requires Process(c.tables[HomeOf(c, id)], Arrival(c, id)).Some?
    requires var g, pr := HomeOf(c, id), Process(c.tables[HomeOf(c, id)], Arrival(c, id)).value;
             c'.tables == c.tables[g := pr.table] && c'.issued == c.issued - Commands(pr.events)
    ensures ParkedOk(c') && TablesOk(c')
  {
    hide Process, Attended, OneEach, Commands, WellFormed, Batch, Awaits;
    InIssued(c, id);
    var g, p := HomeOf(c, id), Arrival(c, id);
    var pr := Process(c.tables[g], p).value;
    ProcessKeepsWellFormed(c.tables[g], p);
    forall h, i: Inode, k | 0 <= h < |c'.tables| && 0 <= k < |Queue(c'.tables[h], i)|
      ensures IsIssued(c', Queue(c'.tables[h], i)[k]) && i % |c'.tables| == h
    {
      if h == g {
        StaysParked(c, id, i, k);
      } else {
        QueuedAt(c, h, i, k);
        ElsewhereNotLetGo(c, id, h, i, k);
      }
    }
    forall h, i: Inode, k, l | 0 <= h < |c'.tables| && 0 <= k < l < |Queue(c'.tables[h], i)|
      ensures Queue(c'.tables[h], i)[k].command != Queue(c'.tables[h], i)[l].command
    {
      if h == g {
        ParkedOnceAfter(c, id, i, k, l);
      }
    }
  }

  lemma ParkedOnceAfter(c: System, id: nat, i: Inode, k: nat, l: nat)
    requires SystemOk(c) && id in c.issued && Awaits(c, id) && !IsParked(c, id)
    requires Process(c.tables[HomeOf(c, id)], Arrival(c, id)).Some?
    requires k < l < |Queue(Process(c.tables[HomeOf(c, id)], Arrival(c, id)).value.table, i)|
    ensures var t' := Process(c.tables[HomeOf(c, id)], Arrival(c, id)).value.table;
            Queue(t', i)[k].command != Queue(t', i)[l].command
  {
    hide Process, Attended, OneEach, TablesOk, Batch, Home;
    var g := HomeOf(c, id);
    QueueAfter(c.tables[g], Arrival(c, id), i);
    BatchInQueue(c.tables[g], i);
    var q := Queue(c.tables[g], i);
    if k < |q| {
      assert q[k].command != id;
    }
  }

  lemma ElsewhereNotLetGo(c: System, id: nat, h: nat, i: Inode, k: nat)
    requires SystemOk(c) && id in c.issued && Awaits(c, id) && !IsParked(c, id) && h < |c.tables| && h != HomeOf(c, id)
    requires Process(c.tables[HomeOf(c, id)], Arrival(c, id)).Some? && k < |Queue(c.tables[h], i)|
    ensures Queue(c.tables[h], i)[k].command !in Commands(Process(c.tables[HomeOf(c, id)], Arrival(c, id)).value.events)
  {
    hide Process, SystemOk, Home;
    LetGo(c, id);
    QueuedAt(c, h, i, k);
  }

  lemma OpenedMatches(c: System, s: Sys, id: nat)
    requires Matches(c, s) && Attended(c) && OneEach(c) && Awaits(c, id)
    requires Process(c.tables[HomeOf(c, id)], Arrival(c, id)).Some?
    ensures Matches(Opened(c, id), s) && Attended(Opened(c, id)) && OneEach(Opened(c, id))
  {
    hide Process, RowsMatch, CountersMatch, ActionOf, Home;
    var g, c' := HomeOf(c, id), Opened(c, id);
    forall i: Inode
      ensures SameRow(c'.tables[i % |c'.tables|].lockIds, s.locks, i)
    {
      assert SameRow(c.tables[i % |c.tables|].lockIds, s.locks, i);
    }
    forall id' | id' in c'.issued
      ensures Awaits(c', id')
    {
      assert Awaits(c, id');
    }
  }

  lemma DeliveryMatches(c: System, s: Sys, id: nat, now: Timestamp)
    requires SystemOk(c) && Matches(c, s) && !c.stopped && Awaits(c, id) && !IsParked(c, id)
    requires DeliveryVetted(c, id, now)
    ensures ValidRun(s, DeliveryLabels(c, id, now))
    ensures Matches(Delivered(c, id, now), Run(s, DeliveryLabels(c, id, now)))
    ensures !Delivered(c, id, now).stopped ==> SystemOk(Delivered(c, id, now))
  {
    hide Process, RowsMatch, CountersMatch, LocksMatch, Attended, OneEach, TablesOk, ParkedOk, IsParked, AllVetted,
         TakeAll, LabelsOf, EventsOk, Enabled, Apply, Awaits, LabelOf, Legal, LocksAfter, Commands;
    InIssued(c, id);
    var g, p := HomeOf(c, id), Arrival(c, id);
    if Process(c.tables[g], p).None? {
      FailureMatches(c, s, id, now);
      FirstStep(s, LabelOf(c, Executes(p), now), []);
    } else {
      var pr := Process(c.tables[g], p).value;
      assert WellFormed(c.tables[g]) by { assert TablesOk(c); TableIs(c, g); }
      ProcessLegal(c.tables[g], p);
      LetGo(c, id);
      OpenedMatches(c, s, id);
      EventsMatch(Opened(c, id), s, g, pr.events, now);
      var c' := Delivered(c, id, now);
      if !c'.stopped {
        StillParkedOk(c, id, c');
      }
    }
  }

  lemma InIssued(c: System, id: nat)
    requires Awaits(c, id)
    ensures id in c.issued && HomeOf(c, id) < |c.tables|
  {}

  lemma TableIs(c: System, g: nat)
    requires TablesOk(c) && g < |c.tables|
    ensures WellFormed(c.tables[g])
  {}
}
