/** The system as it is deployed: each group has its own tables and its own lock table, commands are
    submitted, decided, and wait in the lock table of their group or take effect there. */
module Deployment {
  import opened Types
  import opened Metadata
  import opened Coordinator
  import opened Cluster
  import opened ClusterRuns
  import opened LockTable
  import opened LockRuns
  import Safety

  /** Who waits for the answer to a command: a transaction, or a client of the group. */
  datatype Party = ByTransaction(t: nat, choice: Inode) | ByClient

  datatype Issue = Issue(party: Party, request: Request)

  datatype System = System(
    tables: seq<Table>,           // the lock table of each group
    metas: seq<Meta>,             // the metadata tables of each group
    txns: map<nat, Txn>,
    issued: map<nat, Issue>,      // the commands whose answers are awaited
    stopped: bool)

  /** The group that a request goes to. */
  function Home(n: nat, r: Request): Option<nat>
    requires n > 0
  {
    if r.CreateInode? then Some(r.raftGroup)
    else match MetaOf(r).inode
      case Some(i) => Some(i % n)
      case None => None
  }

  // ------------------------------------------------------------------ what a group's lock table lets happen

  /** The party goes on with its answer; a transaction may fail an assertion on it. */
  function Reply(c: System, party: Party, o: Outcome): System {
    if party.ByClient? || party.t !in c.txns then c
    else match Resume(c.txns[party.t], party.choice, o)
      case Abort => c.(stopped := true)
      case Go(txn) => c.(txns := c.txns[party.t := txn])
  }

  /** One event at group g.  The locks follow the events. */
  ghost function Take(c: System, g: nat, e: Event, now: Timestamp): System
    requires g < |c.tables| == |c.metas|
  {
    if e.p.command !in c.issued then c
    else
      var party := c.issued[e.p.command].party;
      var c1 := c.(issued := c.issued - {e.p.command},
                   tables := c.tables[g := c.tables[g].(lockIds := LocksAfter(c.tables[g].lockIds, [e]))]);
      match e
      case Grants(_, _, id) => Reply(c1, party, Ok(LockGranted(id)))
      case Frees(_, _) => Reply(c1, party, Ok(Empty))
      case Executes(p) =>
        var step := CommitMeta(c.metas[g], p.request, now);
        if step.outcome.Panicked? then c1.(stopped := true)
        else Reply(c1.(metas := c.metas[g := step.meta]), party, step.outcome)
  }

  // ------------------------------------------------------------------ the same state in the cluster's terms

  /** Each inode's rows are those that its group holds. */
  ghost predicate RowsMatch(metas: seq<Meta>, m: Meta) {
    && |metas| > 0 && m.numGroups == |metas|
    && forall i: Inode :: SameRows(metas[i % |metas|], m, i)
  }

  /** Each group counts its own inode numbers. */
  ghost predicate CountersMatch(metas: seq<Meta>, next: map<nat, Inode>) {
    && (forall g: nat :: g in next <==> g < |metas|)
    && (forall g :: 0 <= g < |metas| ==>
          next[g] == metas[g].nextInode && metas[g].nextInode % |metas| == g && metas[g].numGroups == |metas|)
  }

  /** Each inode is locked where its group has it locked. */
  ghost predicate LocksMatch(tables: seq<Table>, locks: map<Inode, LockId>) {
    |tables| > 0 && forall i: Inode :: SameRow(tables[i % |tables|].lockIds, locks, i)
  }

  ghost predicate Matches(c: System, s: Sys) {
    && |c.tables| == |c.metas|
    && RowsMatch(c.metas, s.meta) && CountersMatch(c.metas, s.next) && LocksMatch(c.tables, s.locks)
    && s.txns == c.txns && (c.stopped <==> s.crash.Some?)
  }

  // ------------------------------------------------------------------ a request at its group and in the cluster

  /** The step does not look at the counter, and does not move it. */
  ghost predicate Uncounted(m: Meta, next: Inode, step: Step, step': Step) {
    step'.outcome == step.outcome && step'.meta == step.meta.(nextInode := next) && step.meta.nextInode == m.nextInode
  }

  lemma OwnerUncounted(m: Meta, r: Request, now: Timestamp, next: Inode)
    requires IsOwnerRequest(r)
    ensures Uncounted(m, next, CommitOwner(m, r, now), CommitOwner(m.(nextInode := next), r, now))
  {
    hide Access.Allows, Access.WithoutSetId, NewTime, IsNow;
  }

  lemma AttrUncounted(m: Meta, r: Request, now: Timestamp, next: Inode)
    requires IsAttrRequest(r)
    ensures Uncounted(m, next, CommitAttr(m, r, now), CommitAttr(m.(nextInode := next), r, now))
  {
    hide Access.Allows, EntriesOf;
  }

  lemma XattrUncounted(m: Meta, r: Request, now: Timestamp, next: Inode)
    requires IsXattrRequest(r)
    ensures Uncounted(m, next, CommitXattr(m, r, now), CommitXattr(m.(nextInode := next), r, now))
  {
    hide Access.XattrDenied;
  }

  lemma LinkUncounted(m: Meta, r: Request, now: Timestamp, next: Inode)
    requires IsLinkRequest(r)
    ensures Uncounted(m, next, CommitLink(m, r, now), CommitLink(m.(nextInode := next), r, now))
  {
    hide Access.Allows, Access.Sticky;
  }

  /** Only CreateInode looks at the counter, and only it moves it. */
  lemma CounterUnused(m: Meta, r: Request, now: Timestamp, next: Inode)
    requires !r.CreateInode?
    ensures Uncounted(m, next, CommitMeta(m, r, now), CommitMeta(m.(nextInode := next), r, now))
  {
    hide CommitOwner, CommitAttr, CommitXattr, CommitLink, EntriesOf;
    if IsOwnerRequest(r) {
      OwnerUncounted(m, r, now, next);
    } else if IsAttrRequest(r) {
      AttrUncounted(m, r, now, next);
    } else if IsXattrRequest(r) {
      XattrUncounted(m, r, now, next);
    } else if IsLinkRequest(r) {
      LinkUncounted(m, r, now, next);
    }
  }

  lemma SameRowsTrans(m1: Meta, m2: Meta, m3: Meta, i: Inode)
    requires SameRows(m1, m2, i) && SameRows(m2, m3, i)
    ensures SameRows(m1, m3, i)
  {}

  lemma SameRowsSym(m1: Meta, m2: Meta, i: Inode)
    requires SameRows(m1, m2, i)
    ensures SameRows(m2, m1, i)
  {}

  /** Rows that neither side's request touches still match. */
  lemma OtherRowsMatch(m1: Meta, m2: Meta, r: Request, now: Timestamp, i: Inode)
    requires SameRows(m1, m2, i) && Target(m1, r) != Some(i) && Target(m2, r) != Some(i)
    ensures SameRows(CommitMeta(m1, r, now).meta, CommitMeta(m2, r, now).meta, i)
  {
    hide CommitMeta, SameRows;
    CommitChangesOnlyItsInode(m1, r, now, i);
    CommitChangesOnlyItsInode(m2, r, now, i);
    SameRowsSym(m1, CommitMeta(m1, r, now).meta, i);
    SameRowsTrans(CommitMeta(m1, r, now).meta, m1, m2, i);
    SameRowsTrans(CommitMeta(m1, r, now).meta, m2, CommitMeta(m2, r, now).meta, i);
  }

  /** The group and the cluster answer alike, and the rows of the request's inode stay alike. */
  lemma TargetMatches(m1: Meta, m: Meta, r: Request, now: Timestamp, i: Inode)
    requires Target(m1, r) == Some(i) && SameRows(m1, m, i) && m1.numGroups == m.numGroups
    requires r.CreateInode? ==> m1.nextInode == m.nextInode
    ensures CommitMeta(m1, r, now).outcome == CommitMeta(m, r, now).outcome
    ensures SameRows(CommitMeta(m1, r, now).meta, CommitMeta(m, r, now).meta, i)
    ensures r.CreateInode? ==> CommitMeta(m1, r, now).meta.nextInode == CommitMeta(m, r, now).meta.nextInode
  {
    hide CommitMeta, SameRow, SameDirectory, SameXattrs;
    var m2 := m.(nextInode := m1.nextInode);
    CommitReadsOnlyItsInode(m1, m2, r, now, i);
    if !r.CreateInode? {
      CounterUnused(m, r, now, m1.nextInode);
    }
  }

  lemma CommitMatches(metas: seq<Meta>, s: Sys, g: nat, r: Request, now: Timestamp)
    requires RowsMatch(metas, s.meta) && CountersMatch(metas, s.next)
    requires g < |metas| && Home(|metas|, r) == Some(g)
    ensures var step, at := Cluster.Execute(s, r, now), CommitMeta(metas[g], r, now);
            && at.outcome == step.outcome
            && RowsMatch(metas[g := at.meta], step.meta)
            && CountersMatch(metas[g := at.meta], CountersAfter(s, r, step.meta))
  {
    hide CommitMeta, SameRows;
    var n := |metas|;
    var m := TablesFor(s, r);
    var i := Target(metas[g], r).value;
    assert SameRows(metas[i % n], s.meta, i);
    assert SameRows(metas[g], m, i) by { SameTables(metas[g], s.meta, m, i); }
    TargetMatches(metas[g], m, r, now, i);
    forall j: Inode
      ensures SameRows(metas[g := CommitMeta(metas[g], r, now).meta][j % n], CommitMeta(m, r, now).meta, j)
    {
      assert SameRows(metas[j % n], s.meta, j);
      SameTables(metas[j % n], s.meta, m, j);
      if j != i {
        OneRow(metas, m, g, r, now, j);
      }
    }
    CounterMoves(metas, m, g, r, now);
  }

  lemma SameTables(m1: Meta, m2: Meta, m3: Meta, i: Inode)
    requires SameRows(m1, m2, i) && m3 == m2.(nextInode := m3.nextInode)
    ensures SameRows(m1, m3, i)
  {}

  lemma OneRow(metas: seq<Meta>, m: Meta, g: nat, r: Request, now: Timestamp, j: Inode)
    requires g < |metas| && SameRows(metas[j % |metas|], m, j) && Target(metas[g], r) == Target(m, r) != Some(j)
    ensures SameRows(metas[g := CommitMeta(metas[g], r, now).meta][j % |metas|], CommitMeta(m, r, now).meta, j)
  {
    hide CommitMeta, SameRows;
    if j % |metas| == g {
      OtherRowsMatch(metas[g], m, r, now, j);
    } else {
      CommitChangesOnlyItsInode(m, r, now, j);
      SameRowsTrans(metas[j % |metas|], m, CommitMeta(m, r, now).meta, j);
    }
  }

  /** The counter of the group moves on, and stays in its residue class. */
  lemma CounterMoves(metas: seq<Meta>, m: Meta, g: nat, r: Request, now: Timestamp)
    requires g < |metas| && metas[g].nextInode % |metas| == g && metas[g].numGroups == |metas|
    ensures var at := CommitMeta(metas[g], r, now).meta;
            && at.nextInode % |metas| == g && at.numGroups == |metas|
            && (!r.CreateInode? ==> at.nextInode == metas[g].nextInode)
            && CommitMeta(m, r, now).meta.numGroups == m.numGroups
  {
    hide CommitMeta;
    Safety.CommitInodeSet(metas[g], r, now);
    Safety.CommitInodeSet(m, r, now);
    if r.CreateInode? {
      Safety.CreateCounts(metas[g], r, now);
      Safety.SameResidue(metas[g].nextInode, |metas|);
    } else {
      CounterUnused(metas[g], r, now, 0);
    }
  }

  // ------------------------------------------------------------------ an event and the cluster's step

  /** The step of the cluster that an event is: one of the transaction that waits for it, or one of a
      client. */
  function LabelOf(c: System, e: Event, now: Timestamp): Label {
    if e.p.command in c.issued && c.issued[e.p.command].party.ByTransaction? then
      var party := c.issued[e.p.command].party;
      TxnStep(party.t, now, if e.Grants? then e.id else 0, party.choice)
    else Env(e.p.request, now)
  }

  /** Whoever issued this command is waiting for it. */
  predicate Awaits(c: System, id: nat) {
    && id in c.issued
    && var issue := c.issued[id];
    && |c.tables| > 0 && Home(|c.tables|, issue.request).Some? && Home(|c.tables|, issue.request).value < |c.tables|
    && match issue.party
       case ByTransaction(t, choice) => t in c.txns && ActionOf(c.txns[t], choice) == Propose(issue.request)
       case ByClient => IsClientRequest(issue.request)
  }

  /** What a kernel has checked when a hardlink is executed. */
  predicate Vetted(c: System, g: nat, e: Event)
    requires g < |c.metas|
  {
    e.p.command in c.issued && c.issued[e.p.command].party.ByTransaction? && c.issued[e.p.command].party.t in c.txns ==>
      KernelValidated(c.metas[g], c.txns[c.issued[e.p.command].party.t])
  }

  function LocksThen(locks: map<Inode, LockId>, e: Event): map<Inode, LockId> {
    match e
    case Executes(_) => locks
    case Grants(_, i, id) => locks[i := id]
    case Frees(_, i) => locks - {i}
  }

  lemma OneEvent(locks: map<Inode, LockId>, e: Event)
    ensures LocksAfter(locks, [e]) == LocksThen(locks, e)
  {
    assert [e][1..] == [];
  }

  lemma LocksMatchAfter(tables: seq<Table>, locks: map<Inode, LockId>, g: nat, e: Event)
    requires LocksMatch(tables, locks) && g < |tables|
    requires !e.Executes? ==> e.inode % |tables| == g
    ensures LocksMatch(tables[g := tables[g].(lockIds := LocksAfter(tables[g].lockIds, [e]))], LocksThen(locks, e))
  {
    hide LocksAfter;
    OneEvent(tables[g].lockIds, e);
    var tables' := tables[g := tables[g].(lockIds := LocksAfter(tables[g].lockIds, [e]))];
    forall i: Inode
      ensures SameRow(tables'[i % |tables'|].lockIds, LocksThen(locks, e), i)
    {
      assert SameRow(tables[i % |tables|].lockIds, locks, i);
    }
  }

  /** The same table decides whether a request must wait. */
  lemma SameAdmission(tables: seq<Table>, locks: map<Inode, LockId>, g: nat, r: Request)
    requires LocksMatch(tables, locks) && g < |tables| && Home(|tables|, r) == Some(g)
    ensures MustWait(locks, r) <==> MustWait(tables[g].lockIds, r)
    ensures ShowsHeldLock(locks, r) <==> ShowsHeldLock(tables[g].lockIds, r)
  {
    var i := MetaOf(r).inode;
    if i.Some? {
      assert SameRow(tables[i.value % |tables|].lockIds, locks, i.value);
    }
  }

  lemma SameValidation(c: System, s: Sys, g: nat, e: Event)
    requires RowsMatch(c.metas, s.meta) && g < |c.metas| && Vetted(c, g, e)
    requires e.p.command in c.issued && c.issued[e.p.command].party.ByTransaction?
    requires c.issued[e.p.command].party.t in c.txns
    requires var party := c.issued[e.p.command].party;
             ActionOf(c.txns[party.t], party.choice) == Propose(e.p.request) && Home(|c.metas|, e.p.request) == Some(g)
    ensures KernelValidated(s.meta, c.txns[c.issued[e.p.command].party.t])
  {
    hide SameDirectory, SameXattrs;
    var txn := c.txns[c.issued[e.p.command].party.t];
    if txn.HardlinkStart? {
      assert SameRows(c.metas[txn.inode % |c.metas|], s.meta, txn.inode);
    }
  }

  /** What a transaction does with its answer. */
  lemma ReplyMatches(c: System, s: Sys, t: nat, choice: Inode, o: Outcome)
    requires Matches(c, s) && !c.stopped && t in c.txns
    ensures Matches(Reply(c, ByTransaction(t, choice), o), Continue(s, t, Resume(s.txns[t], choice, o)))
  {
    hide RowsMatch, CountersMatch, LocksMatch, Resume;
  }

  lemma LockEventMatches(c: System, s: Sys, g: nat, e: Event, now: Timestamp)
    requires Matches(c, s) && !c.stopped && g < |c.tables| && Awaits(c, e.p.command)
    requires c.issued[e.p.command].request == e.p.request
    requires c.issued[e.p.command].party.ByTransaction? && Home(|c.tables|, e.p.request) == Some(g)
    requires !e.Executes? && Allowed(c.tables[g].lockIds, e) && Vetted(c, g, e)
    ensures Enabled(s, LabelOf(c, e, now)) && Matches(Take(c, g, e, now), Apply(s, LabelOf(c, e, now)))
  {
    hide RowsMatch, CountersMatch, LocksMatch, Resume, ActionOf, KernelValidated, Vetted, LocksAfter;
    var party := c.issued[e.p.command].party;
    var t, choice := party.t, party.choice;
    SameValidation(c, s, g, e);
    SameAdmission(c.tables, s.locks, g, e.p.request);
    LocksMatchAfter(c.tables, s.locks, g, e);
    var tables' := c.tables[g := c.tables[g].(lockIds := LocksAfter(c.tables[g].lockIds, [e]))];
    var c1 := c.(issued := c.issued - {e.p.command}, tables := tables');
    if e.Grants? {
      var s1 := s.(locks := s.locks[e.inode := e.id]);
      ReplyMatches(c1, s1, t, choice, Ok(LockGranted(e.id)));
    } else {
      var s1 := s.(locks := s.locks - {e.inode});
      ReplyMatches(c1, s1, t, choice, Ok(Empty));
    }
  }

  lemma ExecutionMatches(c: System, s: Sys, g: nat, e: Event, now: Timestamp)
    requires Matches(c, s) && !c.stopped && g < |c.tables| && Awaits(c, e.p.command)
    requires c.issued[e.p.command].request == e.p.request
    requires c.issued[e.p.command].party.ByTransaction? && Home(|c.tables|, e.p.request) == Some(g)
    requires e.Executes? && Allowed(c.tables[g].lockIds, e) && Vetted(c, g, e)
    ensures Enabled(s, LabelOf(c, e, now)) && Matches(Take(c, g, e, now), Apply(s, LabelOf(c, e, now)))
  {
    hide RowsMatch, CountersMatch, LocksMatch, Resume, ActionOf, KernelValidated, Vetted, LocksAfter, CommitMeta,
         Cluster.Execute, CountersAfter, MustWait, ShowsHeldLock;
    var party, r := c.issued[e.p.command].party, e.p.request;
    SameValidation(c, s, g, e);
    SameAdmission(c.tables, s.locks, g, r);
    LocksMatchAfter(c.tables, s.locks, g, e);
    CommitMatches(c.metas, s, g, r, now);
    var step, at := Cluster.Execute(s, r, now), CommitMeta(c.metas[g], r, now);
    if !step.outcome.Panicked? {
      var tables' := c.tables[g := c.tables[g].(lockIds := LocksAfter(c.tables[g].lockIds, [e]))];
      var c1 := c.(issued := c.issued - {e.p.command}, tables := tables', metas := c.metas[g := at.meta]);
      var s1 := s.(meta := step.meta, next := CountersAfter(s, r, step.meta), spoiled := SpoiledAfter(s, party.t));
      ReplyMatches(c1, s1, party.t, party.choice, at.outcome);
    }
  }

  lemma ClientMatches(c: System, s: Sys, g: nat, e: Event, now: Timestamp)
    requires Matches(c, s) && !c.stopped && g < |c.tables| && Awaits(c, e.p.command)
    requires c.issued[e.p.command].request == e.p.request
    requires c.issued[e.p.command].party.ByClient? && Home(|c.tables|, e.p.request) == Some(g)
    requires Allowed(c.tables[g].lockIds, e)
    ensures Enabled(s, LabelOf(c, e, now)) && Matches(Take(c, g, e, now), Apply(s, LabelOf(c, e, now)))
  {
    hide RowsMatch, CountersMatch, LocksMatch, LocksAfter, CommitMeta, CountersAfter, MustWait, ShowsHeldLock;
    SameAdmission(c.tables, s.locks, g, e.p.request);
    LocksMatchAfter(c.tables, s.locks, g, e);
    CommitMatches(c.metas, s, g, e.p.request, now);
    assert CountersAfter(s, e.p.request, CommitMeta(s.meta, e.p.request, now).meta) == s.next by {
      NoCounter(s, e.p.request);
    }
  }

  lemma NoCounter(s: Sys, r: Request)
    requires IsClientRequest(r)
    ensures forall m :: CountersAfter(s, r, m) == s.next
  {}

  /** Every event at a group's lock table is an enabled step of the cluster, and leaves the deployed
      system and the cluster alike. */
  lemma EventMatches(c: System, s: Sys, g: nat, e: Event, now: Timestamp)
    requires Matches(c, s) && !c.stopped && g < |c.tables| && Awaits(c, e.p.command)
    requires c.issued[e.p.command].request == e.p.request
    requires Home(|c.tables|, e.p.request) == Some(g) && Allowed(c.tables[g].lockIds, e) && Vetted(c, g, e)
    ensures Enabled(s, LabelOf(c, e, now)) && Matches(Take(c, g, e, now), Apply(s, LabelOf(c, e, now)))
  {
    hide Matches, Enabled, Apply, Take, Allowed, Vetted;
    if c.issued[e.p.command].party.ByClient? {
      ClientMatches(c, s, g, e, now);
    } else if e.Executes? {
      ExecutionMatches(c, s, g, e, now);
    } else {
      LockEventMatches(c, s, g, e, now);
    }
  }
}
