/** One member of a replication group: it applies decided commands to its lock table and storage. */
module Replica {
  import opened Types
  import opened Metadata
  import opened FileStore
  import opened LockTable
  import opened LockRuns
  import opened Sequences
  import FileStorage

  /** A decided command; one without a request is a read barrier. */
  datatype Cmd = Cmd(id: nat, body: Option<Request>)

  datatype Answer = Answer(command: nat, outcome: Outcome)

  /** A client waiting for a slot to be applied. */
  datatype Waiter = Waiter(index: nat, client: nat)

  datatype Node = Node(
    store: Store,
    table: Table,
    pendingResponses: set<nat>,   // commands submitted here whose clients wait for an answer
    syncRequests: seq<Waiter>,
    appliedIndex: nat,
    executed: nat,                // requests executed so far: the position on this node's clock
    answers: multiset<Answer>,    // sent to clients of this node
    results: seq<Answer>,         // of all commands, wherever they were submitted
    woken: seq<Waiter>,
    stopped: bool)

  /** Which replica of its group this is, and its clock. */
  datatype AnyPlace = Place(rank: nat, size: nat, clock: nat -> Timestamp)

  type Place = at: AnyPlace | at.rank < at.size witness AnyPlace.Place(0, 1, _ => Timestamp(0, 0))

  // ------------------------------------------------------------------ applying a command

  function ToProcess(events: seq<Event>): seq<Pending> {
    if events == [] then []
    else (if events[0].Executes? then [events[0].p] else []) + ToProcess(events[1..])
  }

  /** Locks and unlocks are answered by the lock table. */
  function AnswerOf(e: Event): seq<(Answer, bool)> {
    match e
    case Executes(_) => []
    case Grants(p, _, id) => [(Answer(p.command, Ok(LockGranted(id))), p.reply)]
    case Frees(p, _) => [(Answer(p.command, Ok(Empty)), p.reply)]
  }

  function LockAnswers(events: seq<Event>): seq<(Answer, bool)> {
    if events == [] then [] else AnswerOf(events[0]) + LockAnswers(events[1..])
  }

  /** Records a result, and answers the client if there is one here. */
  function Respond(n: Node, a: Answer, reply: bool): Node {
    n.(results := n.results + [a], answers := if reply then n.answers + multiset{a} else n.answers)
  }

  function RespondAll(n: Node, answers: seq<(Answer, bool)>): Node
    decreases |answers|
  {
    if answers == [] then n else RespondAll(Respond(n, answers[0].0, answers[0].1), answers[1..])
  }

  ghost function Execute(n: Node, p: Pending, at: Place): Node {
    var step := CommitStore(n.store, p.request, at.clock(n.executed), at.rank, at.size);
    if step.outcome.Panicked? then n.(store := step.store, stopped := true)
    else Respond(n.(store := step.store, executed := n.executed + 1), Answer(p.command, step.outcome), p.reply)
  }

  ghost function ExecuteAll(n: Node, ps: seq<Pending>, at: Place): Node
    decreases |ps|
  {
    if ps == [] || n.stopped then n else ExecuteAll(Execute(n, ps[0], at), ps[1..], at)
  }

  ghost function ApplyCommand(n: Node, c: Cmd, at: Place): Node {
    var reply := c.id in n.pendingResponses;
    var n1 := n.(pendingResponses := n.pendingResponses - {c.id});
    match c.body
    case None => Respond(n1, Answer(c.id, Ok(Empty)), reply)
    case Some(r) =>
      match Process(n.table, Pending(c.id, r, reply))
      case None => n1.(stopped := true)
      case Some(pr) =>
        ExecuteAll(RespondAll(n1.(table := pr.table), LockAnswers(pr.events)), ToProcess(pr.events), at)
  }

  ghost function ApplyCommands(n: Node, cs: seq<Cmd>, at: Place): Node
    decreases |cs|
  {
    if cs == [] || n.stopped then n else ApplyCommands(ApplyCommand(n, cs[0], at), cs[1..], at)
  }

  // ------------------------------------------------------------------ waking those who wait for a slot

  /** How many waiters at the head of the queue a slot releases: up to the first that waits for more. */
  function Ready(queue: seq<Waiter>, slot: nat): (k: nat)
    ensures k <= |queue|
    ensures forall j :: 0 <= j < k ==> queue[j].index <= slot
    ensures k < |queue| ==> queue[k].index > slot
  {
    if queue == [] || queue[0].index > slot then 0 else 1 + Ready(queue[1..], slot)
  }

  function Wake(n: Node, slot: nat): Node {
    var k := Ready(n.syncRequests, slot);
    n.(appliedIndex := slot, syncRequests := n.syncRequests[k..], woken := n.woken + n.syncRequests[..k])
  }

  /** One decided slot. */
  ghost function Deliver(n: Node, slot: nat, cs: seq<Cmd>, at: Place): Node {
    var n' := ApplyCommands(n, cs, at);
    if n'.stopped then n' else Wake(n', slot)
  }

  /** A client asks to be told when a slot has been applied. */
  function SyncStep(n: Node, w: Waiter): Node {
    if n.appliedIndex >= w.index then n.(woken := n.woken + [w]) else n.(syncRequests := n.syncRequests + [w])
  }

  // ------------------------------------------------------------------ lemmas about event lists

  lemma {:induction false} ToProcessConcat(a: seq<Event>, b: seq<Event>)
    ensures ToProcess(a + b) == ToProcess(a) + ToProcess(b)
  {
    FirstAndRest(a, b);
    if a != [] {
      ToProcessConcat(a[1..], b);
      Associate(if a[0].Executes? then [a[0].p] else [], ToProcess(a[1..]), ToProcess(b));
    }
  }

  lemma {:induction false} LockAnswersConcat(a: seq<Event>, b: seq<Event>)
    ensures LockAnswers(a + b) == LockAnswers(a) + LockAnswers(b)
  {
    FirstAndRest(a, b);
    if a != [] {
      LockAnswersConcat(a[1..], b);
      Associate(AnswerOf(a[0]), LockAnswers(a[1..]), LockAnswers(b));
    }
  }

  lemma {:induction false} OfExecutions(ps: seq<Pending>)
    ensures ToProcess(Executions(ps)) == ps && LockAnswers(Executions(ps)) == []
  {
    if ps != [] {
      assert Executions(ps)[1..] == Executions(ps[1..]);
      OfExecutions(ps[1..]);
    }
  }

  lemma OfUnlock(t: Table, p: Pending, i: Inode)
    ensures var batch := Batch(t, i);
            && ToProcess(UnlockEvents(t, p, i)) == Runs(batch)
            && LockAnswers(UnlockEvents(t, p, i))
               == [(Answer(p.command, Ok(Empty)), p.reply)]
                  + if EndsInLock(batch)
                    then [(Answer(batch[|batch| - 1].command, Ok(LockGranted(t.nextId))), batch[|batch| - 1].reply)]
                    else []
  {
    hide BatchSize;
    var batch := Batch(t, i);
    var free, runs := [Frees(p, i)], Executions(Runs(batch));
    var last := if EndsInLock(batch) then [Grants(batch[|batch| - 1], i, t.nextId)] else [];
    assert UnlockEvents(t, p, i) == (free + runs) + last;
    ToProcessConcat(free + runs, last);
    ToProcessConcat(free, runs);
    LockAnswersConcat(free + runs, last);
    LockAnswersConcat(free, runs);
    OfExecutions(Runs(batch));
  }

  lemma RespondTwo(n: Node, a: (Answer, bool), b: (Answer, bool))
    ensures RespondAll(n, [a]) == Respond(n, a.0, a.1)
    ensures RespondAll(n, [a] + [b]) == Respond(Respond(n, a.0, a.1), b.0, b.1)
  {
    assert RespondAll(Respond(n, a.0, a.1), [b]) == Respond(Respond(n, a.0, a.1), b.0, b.1);
    assert ([a] + [b])[0] == a && ([a] + [b])[1..] == [b];
  }

  // ------------------------------------------------------------------ the object

  class ConsensusNode {
    const fileStorage: FileStorage.FileStorage
    const lockTable: LockTable
    var pendingResponses: set<nat>
    var syncRequests: seq<Waiter>
    var appliedIndex: nat
    var executed: nat
    var answers: multiset<Answer>
    var woken: seq<Waiter>
    var stopped: bool
    ghost var results: seq<Answer>

    ghost predicate Valid() { fileStorage.Valid() }

    ghost function Value(): Node
      reads this, lockTable, fileStorage.metadata, fileStorage.data
    {
      Node(fileStorage.Value(), lockTable.Value(), pendingResponses, syncRequests, appliedIndex, executed,
           answers, results, woken, stopped)
    }

    ghost function At(clock: nat -> Timestamp): Place
      requires Valid()
    {
      Place(fileStorage.data.localRank, |fileStorage.data.nodeIds|, clock)
    }

    constructor (nodeId: nat, group: nat, numGroups: nat, peers: seq<nat>, now: Timestamp)
      requires group < numGroups
      ensures Valid() && fresh(lockTable) && fresh(fileStorage.metadata) && fresh(fileStorage.data)
      ensures Value() == Node(fileStorage.Value(), EMPTY, {}, [], 0, 0, multiset{}, [], [], false)
    {
      fileStorage := new FileStorage.FileStorage(nodeId, group, numGroups, peers, now);
      lockTable := new LockTable();
      pendingResponses := {};
      syncRequests := [];
      appliedIndex := 0;
      executed := 0;
      answers := multiset{};
      woken := [];
      stopped := false;
      results := [];
    }

    method Send(a: Answer, reply: bool)
      modifies this`answers, this`results
      ensures Value() == Respond(old(Value()), a, reply)
    {
      results := results + [a];
      if reply {
        answers := answers + multiset{a};
      }
    }

    /** Passes a request through the lock table; answers with the requests to execute now. */
    method ProcessLockTable(p: Pending) returns (ok: bool, toProcess: seq<Pending>)
      requires Valid()
      modifies this`answers, this`results, lockTable
      ensures ok == Process(old(lockTable.Value()), p).Some?
      ensures ok ==> var pr := Process(old(lockTable.Value()), p).value;
                     && toProcess == ToProcess(pr.events)
                     && Value() == RespondAll(old(Value()).(table := pr.table), LockAnswers(pr.events))
      ensures !ok ==> toProcess == [] && Value() == old(Value())
    {
      var m := MetaOf(p.request);
      ghost var t, n := lockTable.Value(), Value();
      if Admit(lockTable.lockIds, m) == Fail {
        return false, [];
      }
      ok := true;
      var locked := lockTable.IsLocked(m);
      if locked {
        lockTable.WaitForLock(m.inode.value, p);
        toProcess := [];
      } else if p.request.Lock? {
        var id := lockTable.Lock(p.request.inode);
        Send(Answer(p.command, Ok(LockGranted(id))), p.reply);
        toProcess := [];
      } else if p.request.Unlock? {
        toProcess := ProcessUnlock(p);
      } else {
        toProcess := [p];
      }
    }

    method ProcessUnlock(p: Pending) returns (toProcess: seq<Pending>)
      requires Valid() && p.request.Unlock? && Admit(lockTable.lockIds, MetaOf(p.request)) == Proceed
      modifies this`answers, this`results, lockTable
      ensures var t, i := old(lockTable.Value()), p.request.inode;
              && toProcess == ToProcess(UnlockEvents(t, p, i))
              && Value() == RespondAll(old(Value()).(table := AfterUnlock(t, i)), LockAnswers(UnlockEvents(t, p, i)))
    {
      hide BatchSize, AfterUnlock, UnlockEvents, LockAnswers, ToProcess;
      ghost var t, i := lockTable.Value(), p.request.inode;
      OfUnlock(t, p, i);
      ghost var n := Value().(table := AfterUnlock(t, i));
      var newId: Option<LockId>;
      toProcess, newId := lockTable.Unlock(p.request.inode, p.request.heldId);
      Send(Answer(p.command, Ok(Empty)), p.reply);
      assert Value() == Respond(n, Answer(p.command, Ok(Empty)), p.reply);
      if newId.Some? {
        var last := toProcess[|toProcess| - 1];
        toProcess := toProcess[..|toProcess| - 1];
        Send(Answer(last.command, Ok(LockGranted(newId.value))), last.reply);
        RespondTwo(n, (Answer(p.command, Ok(Empty)), p.reply),
                   (Answer(last.command, Ok(LockGranted(newId.value))), last.reply));
      } else {
        RespondTwo(n, (Answer(p.command, Ok(Empty)), p.reply), (Answer(p.command, Ok(Empty)), p.reply));
      }
    }

    method ExecuteOne(p: Pending, clock: nat -> Timestamp)
      requires Valid() && !stopped
      modifies this`answers, this`results, this`executed, this`stopped, fileStorage.metadata, fileStorage.data
      ensures Value() == Execute(old(Value()), p, At(clock))
    {
      hide CommitStore;
      var o := fileStorage.CommitWrite(p.request, clock(executed));
      if o.Panicked? {
        stopped := true;
      } else {
        executed := executed + 1;
        Send(Answer(p.command, o), p.reply);
      }
    }

    /** Executes requests one after the other, each at its own time on this node's clock. */
    method ExecuteRequests(toProcess: seq<Pending>, clock: nat -> Timestamp)
      requires Valid() && !stopped
      modifies this`answers, this`results, this`executed, this`stopped, fileStorage.metadata, fileStorage.data
      ensures Value() == ExecuteAll(old(Value()), toProcess, At(clock))
    {
      hide Execute;
      var k := 0;
      while k < |toProcess|
        invariant 0 <= k <= |toProcess| && !stopped
        invariant ExecuteAll(Value(), toProcess[k..], At(clock)) == ExecuteAll(old(Value()), toProcess, At(clock))
      {
        assert toProcess[k..][1..] == toProcess[k + 1..];
        ExecuteOne(toProcess[k], clock);
        if stopped {
          return;
        }
        k := k + 1;
      }
    }

    method ApplyOne(c: Cmd, clock: nat -> Timestamp)
      requires Valid() && !stopped
      modifies this, lockTable, fileStorage.metadata, fileStorage.data
      ensures Value() == ApplyCommand(old(Value()), c, At(clock))
    {
      hide Process, ExecuteAll, RespondAll, LockAnswers, ToProcess;
      var reply := c.id in pendingResponses;
      pendingResponses := pendingResponses - {c.id};
      if c.body.None? {
        Send(Answer(c.id, Ok(Empty)), reply);
        return;
      }
      var ok, toProcess := ProcessLockTable(Pending(c.id, c.body.value, reply));
      if !ok {
        stopped := true;
        return;
      }
      StillRunning(old(Value()), c, reply);
      ExecuteRequests(toProcess, clock);
    }

    /** Applies one decided slot, then wakes those at the head of the queue who waited for it. */
    method ApplyDelivery(slot: nat, commands: seq<Cmd>, clock: nat -> Timestamp)
      requires Valid() && !stopped
      modifies this, lockTable, fileStorage.metadata, fileStorage.data
      ensures Value() == Deliver(old(Value()), slot, commands, At(clock))
    {
      hide ApplyCommand;
      var k := 0;
      while k < |commands|
        invariant 0 <= k <= |commands| && !stopped
        invariant ApplyCommands(Value(), commands[k..], At(clock)) == ApplyCommands(old(Value()), commands, At(clock))
      {
        assert commands[k..][1..] == commands[k + 1..];
        ApplyOne(commands[k], clock);
        if stopped {
          return;
        }
        k := k + 1;
      }
      ghost var n := Value();
      appliedIndex := slot;
      WakeUp(slot);
      assert Value() == Wake(n, slot);
    }

    method WakeUp(slot: nat)
      modifies this`syncRequests, this`woken
      ensures var k := Ready(old(syncRequests), slot);
              syncRequests == old(syncRequests)[k..] && woken == old(woken) + old(syncRequests)[..k]
    {
      ghost var k := 0;
      while syncRequests != []
        invariant k <= |old(syncRequests)| && syncRequests == old(syncRequests)[k..]
        invariant woken == old(woken) + old(syncRequests)[..k]
        invariant Ready(old(syncRequests), slot) == k + Ready(syncRequests, slot)
        decreases |syncRequests|
      {
        if slot >= syncRequests[0].index {
          woken := woken + [syncRequests[0]];
          assert old(syncRequests)[..k + 1] == old(syncRequests)[..k] + [syncRequests[0]];
          syncRequests := syncRequests[1..];
          k := k + 1;
        } else {
          break;
        }
      }
    }

    method Sync(w: Waiter)
      modifies this`syncRequests, this`woken
      ensures Value() == SyncStep(old(Value()), w)
    {
      if appliedIndex >= w.index {
        woken := woken + [w];
      } else {
        syncRequests := syncRequests + [w];
      }
    }
  }

  lemma {:induction false} RespondKeepsRunning(n: Node, answers: seq<(Answer, bool)>)
    ensures RespondAll(n, answers).stopped == n.stopped
    decreases |answers|
  {
    if answers != [] {
      RespondKeepsRunning(Respond(n, answers[0].0, answers[0].1), answers[1..]);
    }
  }

  lemma StillRunning(n: Node, c: Cmd, reply: bool)
    requires !n.stopped && c.body.Some?
    ensures var pr := Process(n.table, Pending(c.id, c.body.value, reply));
            pr.Some? ==>
              !RespondAll(n.(pendingResponses := n.pendingResponses - {c.id}, table := pr.value.table),
                          LockAnswers(pr.value.events)).stopped
  {
    hide Process, RespondAll;
    var pr := Process(n.table, Pending(c.id, c.body.value, reply));
    if pr.Some? {
      RespondKeepsRunning(n.(pendingResponses := n.pendingResponses - {c.id}, table := pr.value.table),
                          LockAnswers(pr.value.events));
    }
  }
}
