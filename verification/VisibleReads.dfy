/** What a read returns: the flat contents, with every acknowledged write. */
module VisibleReads {
  import opened Striping
  import opened Types
  import opened Metadata
  import opened FileStore
  import opened LockTable
  import opened LockRuns
  import opened Replica
  import opened ReplicaDeterminism
  import opened GroupRuns
  import DataStorage
  import Visibility

  // ------------------------------------------------------------------ commands that leave a file alone

  /** The command neither touches inode i nor lets go a request that does. */
  predicate Elsewhere(c: Cmd, i: Inode) { c.body.Some? ==> MetaOf(c.body.value).inode != Some(i) }

  lemma {:induction false} ToProcessIn(events: seq<Event>, p: Pending)
    ensures p in ToProcess(events) ==> p in Served(events)
  {
    if events != [] {
      ToProcessIn(events[1..], p);
    }
  }

  lemma ProcessElsewhere(t: Table, p: Pending, i: Inode, q: Pending)
    requires WellFormed(t) && MetaOf(p.request).inode != Some(i) && Process(t, p).Some?
    requires q in ToProcess(Process(t, p).value.events)
    ensures MetaOf(q.request).inode != Some(i)
  {
    hide BatchSize, ToProcess, UnlockEvents, AfterUnlock, Batch, WellFormed;
    var events := Process(t, p).value.events;
    ToProcessIn(events, q);
    if p.request.Unlock? {
      var j := p.request.inode;
      UnlockServes(t, p, j);
      BatchWaits(t, j);
      assert q == p || q in Batch(t, j);
    }
  }

  lemma FlatElsewhere(flat: map<Inode, seq<Byte>>, m: Meta, r: Request, now: Timestamp, i: Inode)
    requires i in flat && i != m.nextInode && MetaOf(r).inode != Some(i)
    ensures var flat' := FlatCommit(flat, m, r, now); i in flat' && flat'[i] == flat[i]
  {
    hide CommitMeta;
  }

  lemma {:induction false} ExecutesElsewhere(n: Node, ps: seq<Pending>, at: Place, flat: map<Inode, seq<Byte>>,
                                             i: Inode)
    requires Mirrors(n.store, flat, at.rank, at.size) && i in flat
    requires forall k :: 0 <= k < |ps| ==> MetaOf(ps[k].request).inode != Some(i)
    ensures var flat' := FlatExecuteAll(flat, n, ps, at);
            i in flat' && flat'[i] == flat[i] && Mirrors(ExecuteAll(n, ps, at).store, flat', at.rank, at.size)
    decreases |ps|
  {
    hide CommitStore, FlatCommit, HoldsStripes, CommitMeta;
    if ps != [] && !n.stopped {
      var r, now := ps[0].request, at.clock(n.executed);
      CommitMirrors(n.store, flat, r, now, at.rank, at.size);
      FlatElsewhere(flat, n.store.meta, r, now, i);
      ExecutesElsewhere(Execute(n, ps[0], at), ps[1..], at, FlatExecute(flat, n, ps[0], at), i);
    }
  }

  lemma {:induction false} RespondAllKeepsStore(n: Node, answers: seq<(Answer, bool)>)
    ensures RespondAll(n, answers).store == n.store && RespondAll(n, answers).table == n.table
    decreases |answers|
  {
    if answers != [] {
      RespondAllKeepsStore(Respond(n, answers[0].0, answers[0].1), answers[1..]);
    }
  }

  lemma {:induction false} ExecuteAllKeepsTable(n: Node, ps: seq<Pending>, at: Place)
    ensures ExecuteAll(n, ps, at).table == n.table
    decreases |ps|
  {
    hide CommitStore;
    if ps != [] && !n.stopped {
      ExecuteAllKeepsTable(Execute(n, ps[0], at), ps[1..], at);
    }
  }

  lemma CommandElsewhere(n: Node, c: Cmd, at: Place, flat: map<Inode, seq<Byte>>, i: Inode)
    requires WellFormed(n.table) && Mirrors(n.store, flat, at.rank, at.size) && i in flat
    requires Elsewhere(c, i)
    ensures var flat' := FlatApply(flat, n, c, at);
            && i in flat' && flat'[i] == flat[i]
            && Mirrors(ApplyCommand(n, c, at).store, flat', at.rank, at.size)
            && WellFormed(ApplyCommand(n, c, at).table)
  {
    hide Process, ExecuteAll, FlatExecuteAll, RespondAll, Mirrors, ToProcess, LockAnswers, WellFormed;
    if c.body.Some? {
      var p := Pending(c.id, c.body.value, c.id in n.pendingResponses);
      var r := Process(n.table, p);
      if r.Some? {
        var n1 := n.(pendingResponses := n.pendingResponses - {c.id}, table := r.value.table);
        var n2, ps := RespondAll(n1, LockAnswers(r.value.events)), ToProcess(r.value.events);
        RespondAllKeepsStore(n1, LockAnswers(r.value.events));
        forall k | 0 <= k < |ps|
          ensures MetaOf(ps[k].request).inode != Some(i)
        {
          ProcessElsewhere(n.table, p, i, ps[k]);
        }
        ExecutesElsewhere(n2, ps, at, flat, i);
        ExecuteAllKeepsTable(n2, ps, at);
        ProcessKeepsWellFormed(n.table, p);
      }
    }
  }

  lemma {:induction false} CommandsElsewhere(n: Node, cs: seq<Cmd>, at: Place, flat: map<Inode, seq<Byte>>, i: Inode)
    requires WellFormed(n.table) && Mirrors(n.store, flat, at.rank, at.size) && i in flat
    requires forall k :: 0 <= k < |cs| ==> Elsewhere(cs[k], i)
    ensures var flat' := FlatApplyAll(flat, n, cs, at); i in flat' && flat'[i] == flat[i]
    decreases |cs|
  {
    hide ApplyCommand, FlatApply, Mirrors, WellFormed, Elsewhere;
    if cs != [] && !n.stopped {
      CommandElsewhere(n, cs[0], at, flat, i);
      CommandsElsewhere(ApplyCommand(n, cs[0], at), cs[1..], at, FlatApply(flat, n, cs[0], at), i);
    }
  }

  // ------------------------------------------------------------------ prefixes of the log

  lemma {:induction false} TableStaysWellFormed(n: Node, cs: seq<Cmd>, at: Place)
    requires WellFormed(n.table)
    ensures WellFormed(ApplyCommands(n, cs, at).table)
    decreases |cs|
  {
    hide ApplyCommand, WellFormed;
    if cs != [] && !n.stopped {
      CommandKeepsTable(n, cs[0], at);
      TableStaysWellFormed(ApplyCommand(n, cs[0], at), cs[1..], at);
    }
  }

  lemma CommandKeepsTable(n: Node, c: Cmd, at: Place)
    requires WellFormed(n.table)
    ensures WellFormed(ApplyCommand(n, c, at).table)
  {
    hide Process, ExecuteAll, RespondAll, ToProcess, LockAnswers, WellFormed;
    if c.body.Some? {
      var p := Pending(c.id, c.body.value, c.id in n.pendingResponses);
      var r := Process(n.table, p);
      if r.Some? {
        var n1 := n.(pendingResponses := n.pendingResponses - {c.id}, table := r.value.table);
        RespondAllKeepsStore(n1, LockAnswers(r.value.events));
        ExecuteAllKeepsTable(RespondAll(n1, LockAnswers(r.value.events)), ToProcess(r.value.events), at);
        ProcessKeepsWellFormed(n.table, p);
      }
    }
  }

  /** A file that no command in between concerns is the same at both positions. */
  lemma FileUnchanged(g: Group, cmds: seq<Cmd>, lo: nat, p: nat, i: Inode)
    requires lo <= p <= |cmds| && i in FlatAt(g, cmds, lo)
    requires forall k :: lo <= k < |cmds| ==> Elsewhere(cmds[k], i)
    ensures i in FlatAt(g, cmds, p) && FlatAt(g, cmds, p)[i] == FlatAt(g, cmds, lo)[i]
  {
    hide ApplyCommands, FlatApplyAll, Mirrors, Elsewhere, WellFormed;
    var n, at := NewNode(g.start, g.groups, g.births[0]), g.places[0];
    assert cmds[..p] == cmds[..lo] + cmds[lo..p];
    ApplyConcat(n, cmds[..lo], cmds[lo..p], at, map[]);
    MirrorsAt(g, 0, cmds, lo);
    EmptyWellFormed();
    TableStaysWellFormed(n, cmds[..lo], at);
    CommandsElsewhere(NodeAt(g, 0, cmds, lo), cmds[lo..p], at, FlatAt(g, cmds, lo), i);
  }

  lemma EmptyWellFormed()
    ensures WellFormed(EMPTY)
  {}

  // ------------------------------------------------------------------ reads

  /** What replica q reads of its share of a file when it has worked through p commands. */
  ghost function Share(g: Group, q: nat, cmds: seq<Cmd>, p: nat, i: Inode, offset: nat, size: nat): seq<Byte>
    requires q < |g.places| && p <= |cmds|
  {
    RawRead(FileIn(NodeAt(g, q, cmds, p).store.files, i), offset, size, q, |g.places|)
  }

  /** The shares of all replicas, each read at its own position. */
  ghost function Shares(g: Group, cmds: seq<Cmd>, pos: seq<nat>, i: Inode, offset: nat,
                        size: nat): (blocks: seq<seq<Byte>>)
    requires |pos| == |g.places| && forall q :: 0 <= q < |pos| ==> pos[q] <= |cmds|
    ensures |blocks| == |pos| && forall q :: 0 <= q < |pos| ==> blocks[q] == Share(g, q, cmds, pos[q], i, offset, size)
  {
    seq(|pos|, q requires 0 <= q < |pos| => Share(g, q, cmds, pos[q], i, offset, size))
  }

  /** The replicas may have got to different positions: as long as no command from position lo on
      concerns the file, their shares are those of its contents at lo. */
  lemma SharesOfFlat(g: Group, cmds: seq<Cmd>, pos: seq<nat>, lo: nat, i: Inode, offset: nat, size: nat)
    requires |pos| == |g.places| && lo <= |cmds| && i in FlatAt(g, cmds, lo)
    requires forall q :: 0 <= q < |pos| ==> lo <= pos[q] <= |cmds|
    requires forall k :: lo <= k < |cmds| ==> Elsewhere(cmds[k], i)
    ensures DataStorage.AreRawReads(Shares(g, cmds, pos, i, offset, size), FlatAt(g, cmds, lo)[i], offset, size)
  {
    hide NodeAt, FlatAt, RawRead, Stripe, Elsewhere;
    var blocks, flat := Shares(g, cmds, pos, i, offset, size), FlatAt(g, cmds, lo)[i];
    forall q | 0 <= q < |blocks|
      ensures blocks[q] == RawRead(Stripe(flat, q, |blocks|), offset, size, q, |blocks|)
    {
      FileUnchanged(g, cmds, lo, pos[q], i);
      MirrorsAt(g, q, cmds, pos[q]);
    }
  }

  /** How far each of the n replicas was when it answered a read. */
  function Positions(read: Visibility.Reading, n: nat): (pos: seq<nat>)
    requires forall q :: 0 <= q < n ==> q in read.served
    ensures |pos| == n && forall q :: 0 <= q < n ==> pos[q] == read.served[q]
  {
    seq(n, q requires 0 <= q < n => read.served[q])
  }

  /** A read that all replicas have answered.  Every write acknowledged before it began is one of the
      commands decided by then, and every replica has executed it when the log had reached that
      position.  If no later command concerns the file, what the read gathers are exactly the bytes of
      the contents at that position, although the replicas may have been at different positions. */
  lemma ReadReturnsAcknowledged(g: Group, steps: seq<Visibility.Step>, id: nat, i: Inode, offset: nat, size: nat)
    requires Visibility.ValidRun(g, Visibility.Initial(|g.places|), steps)
    requires var s := Visibility.Run(g, Visibility.Initial(|g.places|), steps);
             && id in s.readings
             && (forall q :: 0 <= q < |g.places| ==> q in s.readings[id].served)
             && (forall k :: Visibility.DecidedBefore(s, id) <= k < |s.log| ==> Elsewhere(s.log[k], i))
             && Visibility.DecidedBefore(s, id) <= |s.log| && i in FlatAt(g, s.log, Visibility.DecidedBefore(s, id))
    ensures var s := Visibility.Run(g, Visibility.Initial(|g.places|), steps);
            var read, lo := s.readings[id], Visibility.DecidedBefore(s, id);
            var pos := Positions(read, |g.places|);
            && |pos| > 0
            && (forall c :: c in read.acknowledged ==> IsIn(s.log[..lo], c))
            && (forall c, q :: c in read.acknowledged && 0 <= q < |g.places| ==> HasAnswered(g, q, s.log, lo, c))
            && (forall q :: 0 <= q < |pos| ==> lo <= pos[q] <= |s.log|)
            && DataStorage.GatherOf(Shares(g, s.log, pos, i, offset, size), offset)
               == FlatRead(FlatAt(g, s.log, lo)[i], offset, size)
  {
    hide FlatAt, Elsewhere, FlatRead, DataStorage.GatherOf, Visibility.Inv, Visibility.DecidedBefore, Shares,
         DataStorage.AreRawReads, Visibility.Run, Visibility.ValidRun, HasAnswered, ValidGroup;
    var s := Visibility.Run(g, Visibility.Initial(|g.places|), steps);
    var lo := Visibility.DecidedBefore(s, id);
    Visibility.ReachableInv(g, steps);
    Visibility.ServedBeyond(g, s, id);
    forall c, q | c in s.readings[id].acknowledged && 0 <= q < |g.places|
      ensures HasAnswered(g, q, s.log, lo, c)
    {
      AnswersStay(g, q, s.log, s.readings[id].acknowledged[c], lo, c);
    }
    forall c | c in s.readings[id].acknowledged
      ensures IsIn(s.log[..lo], c)
    {
      SomeReplica(g);
      DecidedAndAnswered(g, s.log, lo, c);
    }
    var pos := Positions(s.readings[id], |g.places|);
    SomeReplica(g);
    SharesOfFlat(g, s.log, pos, lo, i, offset, size);
    DataStorage.GatherOfFlat(Shares(g, s.log, pos, i, offset, size), offset, FlatAt(g, s.log, lo)[i], size);
  }

  /** Command c is among these. */
  ghost predicate IsIn(cmds: seq<Cmd>, c: nat) { exists k :: 0 <= k < |cmds| && cmds[k].id == c }

  lemma DecidedAndAnswered(g: Group, log: seq<Cmd>, lo: nat, c: nat)
    requires lo <= |log| && HasAnswered(g, 0, log, lo, c)
    ensures IsIn(log[..lo], c)
  {
    hide HasAnswered;
    AnsweredIsInLog(g, 0, log, lo, c);
    var k :| 0 <= k < lo && log[k].id == c;
    assert log[..lo][k].id == c;
  }

  lemma SomeReplica(g: Group)
    ensures |g.places| > 0
  {}
}
