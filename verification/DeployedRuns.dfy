/** Whole runs of the deployed system, and the runs of the cluster that they are. */
module DeployedRuns {
  import opened Types
  import opened Metadata
  import opened Coordinator
  import opened Cluster
  import opened ClusterRuns
  import opened Invariant
  import opened Locks = LockTable
  import opened LockRuns
  import opened Deployment
  import opened Refinement
  import opened Safety
  import opened LockSafety

  /** A transaction starts; a command is submitted; a decided command reaches its group; a transaction
      reads from a group. */
  datatype Move =
    | Start(t: nat, txn: Txn)
    | Send(id: nat, issue: Issue)
    | Deliver(id: nat, now: Timestamp)
    | Look(t: nat, choice: Inode)

  ghost predicate Can(c: System, move: Move) {
    && |c.metas| == |c.tables| > 0 && !c.stopped
    && match move
       case Start(t, txn) => t !in c.txns && IsStart(txn) && (txn.CreateStart? ==> txn.group < |c.tables|)
       case Send(id, issue) =>
         && id !in c.issued && Awaits(c.(issued := c.issued[id := issue]), id)
         && forall id' :: id' in c.issued ==> !SameTransaction(issue.party, c.issued[id'].party)
       case Deliver(id, now) => Awaits(c, id) && !IsParked(c, id) && DeliveryVetted(c, id, now)
       case Look(t, choice) => t in c.txns && IsRead(ActionOf(c.txns[t], choice))
  }

  predicate IsRead(a: Action) { a.ReadAttr? || a.ReadEntry? }

  /** A read at the group that holds the inode. */
  function ReadAt(c: System, a: Action): Outcome
    requires |c.metas| > 0 && IsRead(a)
  {
    match a
    case ReadAttr(i) => GetAttributes(c.metas[i % |c.metas|], i)
    case ReadEntry(p, n, u) => LookupOutcome(c.metas[p % |c.metas|], p, n, u)
  }

  /** The next state; a move that is not possible is not made. */
  ghost function Do(c: System, move: Move): System {
    if !Can(c, move) then c else
    match move
    case Start(t, txn) => c.(txns := c.txns[t := txn])
    case Send(id, issue) => c.(issued := c.issued[id := issue])
    case Deliver(id, now) => Delivered(c, id, now)
    case Look(t, choice) => Reply(c, ByTransaction(t, choice), ReadAt(c, ActionOf(c.txns[t], choice)))
  }

  ghost function LabelsFor(c: System, move: Move): seq<Label> {
    match move
    case Start(t, txn) => [Begin(t, txn)]
    case Send(_, _) => []
    case Deliver(id, now) => DeliveryLabels(c, id, now)
    case Look(t, choice) => [TxnStep(t, Timestamp(0, 0), 0, choice)]
  }

  // ------------------------------------------------------------------ each move

  lemma SameParked(c: System, c': System)
    requires ParkedOk(c) && c'.tables == c.tables && forall p :: IsIssued(c, p) ==> IsIssued(c', p)
    ensures ParkedOk(c')
  {}

  lemma SameTablesOk(c: System, c': System)
    requires TablesOk(c) && c'.tables == c.tables
    ensures TablesOk(c')
  {}

  lemma StartMatches(c: System, s: Sys, t: nat, txn: Txn)
    requires SystemOk(c) && Matches(c, s) && Can(c, Start(t, txn))
    ensures Enabled(s, Begin(t, txn)) && Matches(Do(c, Start(t, txn)), Apply(s, Begin(t, txn)))
    ensures SystemOk(Do(c, Start(t, txn)))
  {
    hide RowsMatch, LocksMatch, ActionOf, TablesOk, ParkedOk, Home, IsStart;
    var c' := Do(c, Start(t, txn));
    SameTablesOk(c, c');
    SameParked(c, c');
    forall id | id in c'.issued
      ensures Awaits(c', id)
    {
      assert Awaits(c, id);
    }
  }

  lemma SendMatches(c: System, s: Sys, id: nat, issue: Issue)
    requires SystemOk(c) && Matches(c, s) && Can(c, Send(id, issue))
    ensures Matches(Do(c, Send(id, issue)), s) && SystemOk(Do(c, Send(id, issue)))
  {
    hide RowsMatch, CountersMatch, LocksMatch, ActionOf, TablesOk, ParkedOk, Home;
    var c' := Do(c, Send(id, issue));
    SameTablesOk(c, c');
    SameParked(c, c');
    forall id' | id' in c'.issued
      ensures Awaits(c', id')
    {
      if id' != id {
        assert Awaits(c, id');
      }
    }
  }

  /** A read depends on the rows of one inode only. */
  lemma SameAttributes(m1: Meta, m2: Meta, i: Inode)
    requires SameRows(m1, m2, i)
    ensures GetAttributes(m1, i) == GetAttributes(m2, i)
  {
    SameEntries(m1.dir, m2.dir, i);
  }

  lemma SameLookup(m1: Meta, m2: Meta, p: Inode, n: Name, u: UserContext)
    requires SameRows(m1, m2, p)
    ensures LookupOutcome(m1, p, n, u) == LookupOutcome(m2, p, n, u)
  {
    hide SameXattrs;
  }

  lemma ReadsMatch(c: System, m: Meta, a: Action)
    requires RowsMatch(c.metas, m) && IsRead(a)
    ensures match a
            case ReadAttr(i) => ReadAt(c, a) == GetAttributes(m, i)
            case ReadEntry(p, n, u) => ReadAt(c, a) == LookupOutcome(m, p, n, u)
            case _ => true
  {
    hide SameRows, GetAttributes, LookupOutcome;
    match a
    case ReadAttr(i) => SameAttributes(c.metas[i % |c.metas|], m, i);
    case ReadEntry(p, n, u) => SameLookup(c.metas[p % |c.metas|], m, p, n, u);
  }

  /** A transaction that is about to read waits for nothing, and is not a hardlink. */
  lemma ReadAnyChoice(t: Txn, choice: Inode, choice': Inode)
    requires IsRead(ActionOf(t, choice))
    ensures !ActionOf(t, choice').Propose? && !t.HardlinkStart?
  {}

  lemma LookMatches(c: System, s: Sys, t: nat, choice: Inode)
    requires SystemOk(c) && Matches(c, s) && Can(c, Look(t, choice))
    ensures var l := TxnStep(t, Timestamp(0, 0), 0, choice);
            Enabled(s, l) && Matches(Do(c, Look(t, choice)), Apply(s, l))
    ensures SystemOk(Do(c, Look(t, choice)))
  {
    hide RowsMatch, CountersMatch, LocksMatch, ActionOf, TablesOk, ParkedOk, Resume, Home, GetAttributes,
         LookupOutcome, ReadAt, Enabled, Apply;
    var a := ActionOf(c.txns[t], choice);
    ReadsMatch(c, s.meta, a);
    ReadAnyChoice(c.txns[t], choice, choice);
    ReadBy(s, t, Timestamp(0, 0), 0, choice, ReadAt(c, a));
    ReplyMatches(c, s, t, choice, ReadAt(c, a));
    var c' := Do(c, Look(t, choice));
    forall id | id in c'.issued
      ensures Awaits(c', id)
    {
      assert Awaits(c, id);
      if c.issued[id].party.ByTransaction? {
        ReadAnyChoice(c.txns[t], choice, c.issued[id].party.choice);
      }
    }
    assert ParkedOk(c') by { SameParked(c, c'); }
    assert TablesOk(c') by { SameTablesOk(c, c'); }
  }

  /** Every move is a run of the cluster, and leaves both alike. */
  lemma MoveMatches(c: System, s: Sys, move: Move)
    requires SystemOk(c) && Matches(c, s) && Can(c, move)
    ensures ValidRun(s, LabelsFor(c, move)) && Matches(Do(c, move), Run(s, LabelsFor(c, move)))
    ensures !Do(c, move).stopped ==> SystemOk(Do(c, move))
  {
    hide Matches, SystemOk, Enabled, Apply, Delivered, DeliveryLabels, Awaits, IsParked;
    match move
    case Start(t, txn) =>
      StartMatches(c, s, t, txn);
      FirstStep(s, Begin(t, txn), []);
    case Send(id, issue) =>
      SendMatches(c, s, id, issue);
    case Deliver(id, now) =>
      DeliveryMatches(c, s, id, now);
    case Look(t, choice) =>
      LookMatches(c, s, t, choice);
      FirstStep(s, TxnStep(t, Timestamp(0, 0), 0, choice), []);
  }

  // ------------------------------------------------------------------ runs

  ghost predicate ValidMoves(c: System, moves: seq<Move>)
    decreases |moves|
  {
    moves == [] || (Can(c, moves[0]) && ValidMoves(Do(c, moves[0]), moves[1..]))
  }

  ghost function RunMoves(c: System, moves: seq<Move>): System
    decreases |moves|
  {
    if moves == [] then c else RunMoves(Do(c, moves[0]), moves[1..])
  }

  ghost function AllLabels(c: System, moves: seq<Move>): seq<Label>
    decreases |moves|
  {
    if moves == [] then [] else LabelsFor(c, moves[0]) + AllLabels(Do(c, moves[0]), moves[1..])
  }

  lemma {:induction false} MovesMatch(c: System, s: Sys, moves: seq<Move>)
    requires Matches(c, s) && ValidMoves(c, moves) && (!c.stopped ==> SystemOk(c))
    ensures ValidRun(s, AllLabels(c, moves)) && Matches(RunMoves(c, moves), Run(s, AllLabels(c, moves)))
    decreases |moves|
  {
    hide Matches, SystemOk, Can, Do, LabelsFor, Enabled, Apply;
    if moves != [] {
      assert !c.stopped by { Goes(c, moves[0]); }
      var first := LabelsFor(c, moves[0]);
      MoveMatches(c, s, moves[0]);
      MovesMatch(Do(c, moves[0]), Run(s, first), moves[1..]);
      Append(s, first, AllLabels(Do(c, moves[0]), moves[1..]));
    }
  }

  lemma Goes(c: System, move: Move)
    requires Can(c, move)
    ensures !c.stopped
  {}

  // ------------------------------------------------------------------ from the start

  /** New groups: empty lock tables, and tables with the root directory, made at some time each. */
  ghost predicate NewSystem(c: System) {
    && |c.tables| == |c.metas| > 0 && c.txns == map[] && c.issued == map[] && !c.stopped
    && (forall g :: 0 <= g < |c.tables| ==> c.tables[g] == EMPTY)
    && (forall g :: 0 <= g < |c.metas| ==> NewMeta(c.metas[g], |c.metas|))
    && (forall g :: 0 <= g < |c.metas| ==> c.metas[g].nextInode > ROOT_INODE && c.metas[g].nextInode % |c.metas| == g)
  }

  ghost predicate NewMeta(m: Meta, n: nat) { exists start, now :: m == InitialMeta(start, n, now) }

  /** There is one for every number of groups. */
  lemma NewSystemExists(n: nat, now: Timestamp) returns (c: System)
    requires n > 0
    ensures NewSystem(c) && |c.tables| == n
  {
    hide SomeStart;
    c := System(seq(n, _ => EMPTY), seq(n, (g: nat) => InitialMeta(SomeStart(g, n), n, now)), map[], map[], false);
    forall g | 0 <= g < n
      ensures NewMeta(c.metas[g], n) && c.metas[g].nextInode > ROOT_INODE && c.metas[g].nextInode % n == g
    {
      SomeStartOk(g, n);
      assert c.metas[g] == InitialMeta(SomeStart(g, n), n, now);
    }
  }

  /** The cluster that a new system is: the root directory is what its own group has. */
  function NewCluster(c: System): Sys
    requires |c.metas| > 0
  {
    Sys(c.metas[ROOT_INODE % |c.metas|], map g | 0 <= g < |c.metas| :: c.metas[g].nextInode, map[], map[], None, {})
  }

  lemma OnlyRootRows(m1: Meta, m2: Meta, n: nat, i: Inode)
    requires NewMeta(m1, n) && NewMeta(m2, n) && i != ROOT_INODE
    ensures SameRows(m1, m2, i)
  {}

  lemma NewMatches(c: System)
    requires NewSystem(c)
    ensures Initial(NewCluster(c)) && Matches(c, NewCluster(c)) && SystemOk(c)
  {
    hide NewMeta, SameRows;
    var s, n := NewCluster(c), |c.metas|;
    forall i: Inode
      ensures SameRows(c.metas[i % n], s.meta, i)
    {
      if i == ROOT_INODE {
        SameRowsReflexive(s.meta, i);
      } else {
        OnlyRootRows(c.metas[i % n], s.meta, n, i);
      }
    }
    NewFacts(c);
    assert Initial(s) by { NewIsInitial(c); }
    assert SystemOk(c) by { NewIsOk(c); }
  }

  lemma NewFacts(c: System)
    requires NewSystem(c)
    ensures forall g :: 0 <= g < |c.metas| ==> c.metas[g].numGroups == |c.metas|
  {
    forall g | 0 <= g < |c.metas|
      ensures c.metas[g].numGroups == |c.metas|
    {
      assert NewMeta(c.metas[g], |c.metas|);
    }
  }

  lemma NewIsInitial(c: System)
    requires NewSystem(c)
    ensures Initial(NewCluster(c))
  {
    NewFacts(c);
    assert NewMeta(c.metas[ROOT_INODE % |c.metas|], |c.metas|);
  }

  lemma NewIsOk(c: System)
    requires NewSystem(c)
    ensures SystemOk(c)
  {
    hide NewMeta, MetaOf, Awaits;
    forall g | 0 <= g < |c.tables|
      ensures WellFormed(c.tables[g]) && forall i :: Queue(c.tables[g], i) == []
    {
      assert c.tables[g] == EMPTY;
    }
  }

  /** Whatever the groups' logs hold, and however their lock tables park, drain and hand over, the
      deployed system does what some run of the cluster does, from a new filesystem on: the same
      rows, counters, locks, transactions and stops. */
  lemma DeployedIsCluster(c: System, moves: seq<Move>)
    requires NewSystem(c) && ValidMoves(c, moves)
    ensures Initial(NewCluster(c)) && ValidRun(NewCluster(c), AllLabels(c, moves))
    ensures Matches(RunMoves(c, moves), Run(NewCluster(c), AllLabels(c, moves)))
  {
    hide Matches, SystemOk, NewSystem, Initial, ValidMoves, RunMoves, AllLabels, ValidRun, Run;
    assert |c.metas| > 0 by { assert NewSystem(c); HasGroups(c); }
    NewMatches(c);
    MovesMatch(c, NewCluster(c), moves);
  }

  lemma HasGroups(c: System)
    requires NewSystem(c)
    ensures |c.metas| > 0
  {}

  /** For instance: in the deployed system no two transactions ever hold the lock of the same inode,
      and what a transaction holds is in the lock table of the inode's group under its id. */
  lemma DeployedLocksAreExclusive(c: System, moves: seq<Move>, t: nat, u: nat, i: Inode)
    requires NewSystem(c) && ValidMoves(c, moves)
    requires var c' := RunMoves(c, moves);
             t in c'.txns && u in c'.txns && i in Held(c'.txns[t]) && i in Held(c'.txns[u])
    ensures t == u
    ensures var c' := RunMoves(c, moves); var n := |c'.tables|;
            n > 0 && i in c'.tables[i % n].lockIds && c'.tables[i % n].lockIds[i] == Held(c'.txns[t])[i]
  {
    hide NewSystem, Initial, ValidMoves, RunMoves, AllLabels, ValidRun, Run, Held, RowsMatch, CountersMatch, FreshOk,
         Knows, ActionOf, ShowsHeldLock;
    HasGroups(c);
    DeployedIsCluster(c, moves);
    LocksAreExclusive(NewCluster(c), AllLabels(c, moves));
    var s := Run(NewCluster(c), AllLabels(c, moves));
    assert SameRow(RunMoves(c, moves).tables[i % |RunMoves(c, moves).tables|].lockIds, s.locks, i);
  }
}
