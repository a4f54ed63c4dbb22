/** Two replicas of a group that apply the same slots agree, whatever their clocks and whoever
    submitted the commands. */
module ReplicaDeterminism {
  import opened Striping
  import opened Types
  import opened Metadata
  import opened Determinism
  import opened FileStore
  import opened LockTable
  import opened LockRuns
  import opened Replica
  import FileStorage

  // ------------------------------------------------------------------ forgetting who waits for an answer

  function Strip(p: Pending): Pending { p.(reply := false) }

  function StripAll(ps: seq<Pending>): (s: seq<Pending>)
    ensures |s| == |ps| && forall k :: 0 <= k < |ps| ==> s[k] == Strip(ps[k])
  {
    seq(|ps|, k requires 0 <= k < |ps| => Strip(ps[k]))
  }

  function StripTable(t: Table): Table {
    t.(pending := map i | i in t.pending :: StripAll(t.pending[i]))
  }

  function StripEvent(e: Event): Event {
    match e
    case Executes(p) => Executes(Strip(p))
    case Grants(p, i, id) => Grants(Strip(p), i, id)
    case Frees(p, i) => Frees(Strip(p), i)
  }

  function StripEvents(es: seq<Event>): (s: seq<Event>)
    ensures |s| == |es| && forall k :: 0 <= k < |es| ==> s[k] == StripEvent(es[k])
  {
    seq(|es|, k requires 0 <= k < |es| => StripEvent(es[k]))
  }

  lemma {:induction false} StripBatchSize(q: seq<Pending>)
    ensures BatchSize(StripAll(q)) == BatchSize(q)
  {
    if q != [] {
      assert StripAll(q)[1..] == StripAll(q[1..]);
      StripBatchSize(q[1..]);
    }
  }

  lemma StripBatch(t: Table, i: Inode)
    ensures Queue(StripTable(t), i) == StripAll(Queue(t, i))
    ensures Batch(StripTable(t), i) == StripAll(Batch(t, i))
    ensures EndsInLock(Batch(StripTable(t), i)) == EndsInLock(Batch(t, i))
  {
    hide BatchSize;
    assert StripAll([]) == [];
    StripBatchSize(Queue(t, i));
  }

  lemma {:induction false} StripExecutions(ps: seq<Pending>)
    ensures Executions(StripAll(ps)) == StripEvents(Executions(ps))
  {
    if ps != [] {
      assert StripAll(ps)[1..] == StripAll(ps[1..]);
      StripExecutions(ps[1..]);
    }
  }

  lemma StripPut(t: Table, i: Inode, q: seq<Pending>)
    ensures StripTable(t.(pending := t.pending[i := q]))
         == StripTable(t).(pending := StripTable(t).pending[i := StripAll(q)])
  {
    var m, m' := StripTable(t.(pending := t.pending[i := q])).pending, StripTable(t).pending[i := StripAll(q)];
    assert m.Keys == m'.Keys;
  }

  lemma StripAfterUnlock(t: Table, i: Inode)
    ensures AfterUnlock(StripTable(t), i) == StripTable(AfterUnlock(t, i))
  {
    hide BatchSize, EndsInLock;
    StripBatch(t, i);
    var batch, q := Batch(t, i), Queue(t, i);
    assert StripAll(q)[|batch|..] == StripAll(q[|batch|..]);
    var t' := if EndsInLock(batch) then Granted(Released(t, i), i) else Released(t, i);
    StripPut(t', i, q[|batch|..]);
  }

  lemma StripUnlockEvents(t: Table, p: Pending, i: Inode)
    ensures UnlockEvents(StripTable(t), Strip(p), i) == StripEvents(UnlockEvents(t, p, i))
  {
    hide BatchSize, Batch;
    StripBatch(t, i);
    var batch := Batch(t, i);
    assert Runs(StripAll(batch)) == StripAll(Runs(batch));
    StripExecutions(Runs(batch));
  }

  /** The lock table does not look at who waits for an answer. */
  lemma StripProcess(t: Table, p: Pending)
    ensures Process(StripTable(t), Strip(p))
         == match Process(t, p) case None => None
            case Some(pr) => Some(Processed(StripTable(pr.table), StripEvents(pr.events)))
  {
    hide AfterUnlock, UnlockEvents, Queue;
    if MetaOf(p.request).inode.Some? {
      var i := MetaOf(p.request).inode.value;
      StripBatch(t, i);
      StripAfterUnlock(t, i);
      StripUnlockEvents(t, p, i);
      assert StripAll(Queue(t, i) + [p]) == StripAll(Queue(t, i)) + [Strip(p)];
      StripPut(t, i, Queue(t, i) + [p]);
    }
    assert StripEvents([]) == [] && StripEvents([Executes(p)]) == [Executes(Strip(p))];
    if p.request.Lock? {
      assert StripEvents([Grants(p, p.request.inode, t.nextId)]) == [Grants(Strip(p), p.request.inode, t.nextId)];
    }
  }

  // ------------------------------------------------------------------ agreeing replicas

  function TimelessAnswer(a: Answer): Answer { a.(outcome := TimelessOutcome(a.outcome)) }

  function TimelessResults(rs: seq<Answer>): (s: seq<Answer>)
    ensures |s| == |rs| && forall k :: 0 <= k < |rs| ==> s[k] == TimelessAnswer(rs[k])
  {
    seq(|rs|, k requires 0 <= k < |rs| => TimelessAnswer(rs[k]))
  }

  /** Both hold their stripes of the same flat files, and agree on the metadata up to times. */
  ghost predicate SameStores(st1: Store, at1: Place, st2: Store, at2: Place, flat: map<Inode, seq<Byte>>) {
    && Mirrors(st1, flat, at1.rank, at1.size) && Mirrors(st2, flat, at2.rank, at2.size)
    && SameButTimes(st1.meta, st2.meta) && st1.files.Keys == st2.files.Keys
  }

  /** Same locks and queues, same storage, same results of all commands so far. */
  ghost predicate Agree(n1: Node, at1: Place, n2: Node, at2: Place, flat: map<Inode, seq<Byte>>) {
    && SameStores(n1.store, at1, n2.store, at2, flat)
    && StripTable(n1.table) == StripTable(n2.table)
    && TimelessResults(n1.results) == TimelessResults(n2.results)
    && n1.appliedIndex == n2.appliedIndex && n1.stopped == n2.stopped
  }

  lemma SameFileKeys(st1: Store, st2: Store, r: Request, now1: Timestamp, now2: Timestamp, at1: Place, at2: Place)
    requires SameButTimes(st1.meta, st2.meta) && st1.files.Keys == st2.files.Keys
    ensures var s1, s2 := CommitStore(st1, r, now1, at1.rank, at1.size), CommitStore(st2, r, now2, at2.rank, at2.size);
            s1.store.files.Keys == s2.store.files.Keys && TimelessOutcome(s1.outcome) == TimelessOutcome(s2.outcome)
  {
    hide CommitMeta, SameAttrs, LocalWrite, SetLength, CountOwned;
    CommitDeterministic(st1.meta, st2.meta, r, now1, now2);
    if r.DecrementInode? {
      SameDeletion(st1.meta, st2.meta, r, now1, now2);
      hide DeletedFile, SameButTimes;
    } else {
      hide DeletedFile, SameButTimes;
      assert st1.meta.nextInode == st2.meta.nextInode by { SameCounter(st1.meta, st2.meta); }
    }
  }

  lemma SameCounter(m1: Meta, m2: Meta)
    requires SameButTimes(m1, m2)
    ensures m1.nextInode == m2.nextInode
  {}

  lemma SameDeletion(m1: Meta, m2: Meta, r: Request, now1: Timestamp, now2: Timestamp)
    requires SameButTimes(m1, m2) && r.DecrementInode?
    ensures DeletedFile(m1, CommitMeta(m1, r, now1), r) == DeletedFile(m2, CommitMeta(m2, r, now2), r)
  {
    hide CommitMeta, SameAttrs;
    CommitDeterministic(m1, m2, r, now1, now2);
    SameKeys(m1, m2, r.inode);
    SameKeys(CommitMeta(m1, r, now1).meta, CommitMeta(m2, r, now2).meta, r.inode);
  }

  lemma StoresStaySame(st1: Store, st2: Store, r: Request, now1: Timestamp, now2: Timestamp, at1: Place, at2: Place,
                       flat: map<Inode, seq<Byte>>)
    requires SameStores(st1, at1, st2, at2, flat)
    ensures var s1, s2 := CommitStore(st1, r, now1, at1.rank, at1.size), CommitStore(st2, r, now2, at2.rank, at2.size);
            && SameStores(s1.store, at1, s2.store, at2, FlatCommit(flat, st1.meta, r, now1))
            && TimelessOutcome(s1.outcome) == TimelessOutcome(s2.outcome)
  {
    hide CommitMeta, CommitStore, FlatCommit, Mirrors, SameButTimes;
    CommitMirrors(st1, flat, r, now1, at1.rank, at1.size);
    CommitMirrors(st2, flat, r, now2, at2.rank, at2.size);
    SameFileKeys(st1, st2, r, now1, now2, at1, at2);
    CommitDeterministic(st1.meta, st2.meta, r, now1, now2);
    FileStorage.FlatDeterministic(flat, st1.meta, st2.meta, r, now1, now2);
  }

  // ------------------------------------------------------------------ step by step

  ghost predicate SameAnswers(a1: seq<(Answer, bool)>, a2: seq<(Answer, bool)>) {
    |a1| == |a2| && forall k :: 0 <= k < |a1| ==> a1[k].0 == a2[k].0
  }

  lemma SameFirst(e1: seq<Event>, e2: seq<Event>)
    requires StripEvents(e1) == StripEvents(e2)
    ensures |e1| == |e2|
    ensures e1 != [] ==> StripEvent(e1[0]) == StripEvent(e2[0]) && StripEvents(e1[1..]) == StripEvents(e2[1..])
  {
    assert |e1| == |StripEvents(e1)| == |e2|;
    if e1 != [] {
      assert StripEvent(e1[0]) == StripEvents(e1)[0] == StripEvent(e2[0]);
      assert StripEvents(e1[1..]) == StripEvents(e1)[1..] == StripEvents(e2)[1..] == StripEvents(e2[1..]);
    }
  }

  /** Equal up to who waits, two event lists have the same requests to execute. */
  lemma {:induction false} SameToProcess(e1: seq<Event>, e2: seq<Event>)
    requires StripEvents(e1) == StripEvents(e2)
    ensures StripAll(ToProcess(e1)) == StripAll(ToProcess(e2))
    decreases |e1|
  {
    hide StripEvents;
    SameFirst(e1, e2);
    if e1 != [] {
      SameToProcess(e1[1..], e2[1..]);
      var x1, x2 := ToProcess(e1[1..]), ToProcess(e2[1..]);
      if e1[0].Executes? {
        assert StripAll([e1[0].p] + x1) == [Strip(e1[0].p)] + StripAll(x1);
        assert StripAll([e2[0].p] + x2) == [Strip(e2[0].p)] + StripAll(x2);
      }
    }
  }

  /** And the same answers to locks and unlocks. */
  lemma {:induction false} SameLockAnswers(e1: seq<Event>, e2: seq<Event>)
    requires StripEvents(e1) == StripEvents(e2)
    ensures SameAnswers(LockAnswers(e1), LockAnswers(e2))
    decreases |e1|
  {
    hide StripEvents;
    SameFirst(e1, e2);
    if e1 != [] {
      SameLockAnswers(e1[1..], e2[1..]);
    }
  }

  lemma RespondAgrees(n1: Node, n2: Node, a1: Answer, a2: Answer, reply1: bool, reply2: bool,
                      at1: Place, at2: Place, flat: map<Inode, seq<Byte>>)
    requires Agree(n1, at1, n2, at2, flat)
    requires TimelessAnswer(a1) == TimelessAnswer(a2)
    ensures Agree(Respond(n1, a1, reply1), at1, Respond(n2, a2, reply2), at2, flat)
  {
    hide SameStores, StripTable, TimelessAnswer;
    assert TimelessResults(n1.results + [a1]) == TimelessResults(n1.results) + [TimelessAnswer(a1)];
    assert TimelessResults(n2.results + [a2]) == TimelessResults(n2.results) + [TimelessAnswer(a2)];
  }

  lemma {:induction false} RespondAllAgrees(n1: Node, n2: Node, a1: seq<(Answer, bool)>, a2: seq<(Answer, bool)>,
                                            at1: Place, at2: Place, flat: map<Inode, seq<Byte>>)
    requires Agree(n1, at1, n2, at2, flat) && SameAnswers(a1, a2)
    ensures Agree(RespondAll(n1, a1), at1, RespondAll(n2, a2), at2, flat)
    decreases |a1|
  {
    hide Agree, Respond;
    if a1 != [] {
      RespondAgrees(n1, n2, a1[0].0, a2[0].0, a1[0].1, a2[0].1, at1, at2, flat);
      RespondAllAgrees(Respond(n1, a1[0].0, a1[0].1), Respond(n2, a2[0].0, a2[0].1), a1[1..], a2[1..], at1, at2, flat);
    }
  }

  /** The flat files after one request, and after several. */
  ghost function FlatExecute(flat: map<Inode, seq<Byte>>, n: Node, p: Pending, at: Place): map<Inode, seq<Byte>> {
    FlatCommit(flat, n.store.meta, p.request, at.clock(n.executed))
  }

  ghost function FlatExecuteAll(flat: map<Inode, seq<Byte>>, n: Node, ps: seq<Pending>,
                                at: Place): map<Inode, seq<Byte>>
    decreases |ps|
  {
    if ps == [] || n.stopped then flat
    else FlatExecuteAll(FlatExecute(flat, n, ps[0], at), Execute(n, ps[0], at), ps[1..], at)
  }

  /** A node that has passed a command through the lock table, and what it is to execute. */
  function Admitted(n: Node, c: Cmd, r: Request): Option<(Node, seq<Pending>)> {
    match Process(n.table, Pending(c.id, r, c.id in n.pendingResponses))
    case None => None
    case Some(pr) =>
      Some((RespondAll(n.(pendingResponses := n.pendingResponses - {c.id}, table := pr.table), LockAnswers(pr.events)),
            ToProcess(pr.events)))
  }

  ghost function FlatApply(flat: map<Inode, seq<Byte>>, n: Node, c: Cmd, at: Place): map<Inode, seq<Byte>> {
    if c.body.None? || Admitted(n, c, c.body.value).None? then flat
    else var admitted := Admitted(n, c, c.body.value).value;
      FlatExecuteAll(flat, admitted.0, admitted.1, at)
  }

  ghost function FlatApplyAll(flat: map<Inode, seq<Byte>>, n: Node, cs: seq<Cmd>, at: Place): map<Inode, seq<Byte>>
    decreases |cs|
  {
    if cs == [] || n.stopped then flat
    else FlatApplyAll(FlatApply(flat, n, cs[0], at), ApplyCommand(n, cs[0], at), cs[1..], at)
  }

  lemma ExecuteAgrees(n1: Node, n2: Node, p1: Pending, p2: Pending, at1: Place, at2: Place, flat: map<Inode, seq<Byte>>)
    requires Agree(n1, at1, n2, at2, flat) && Strip(p1) == Strip(p2)
    ensures Agree(Execute(n1, p1, at1), at1, Execute(n2, p2, at2), at2, FlatExecute(flat, n1, p1, at1))
  {
    hide CommitStore, SameStores, StripTable, FlatCommit;
    var r, now1, now2 := p1.request, at1.clock(n1.executed), at2.clock(n2.executed);
    StoresStaySame(n1.store, n2.store, r, now1, now2, at1, at2, flat);
    var s1 := CommitStore(n1.store, r, now1, at1.rank, at1.size);
    var s2 := CommitStore(n2.store, r, now2, at2.rank, at2.size);
    if !s1.outcome.Panicked? {
      RespondAgrees(n1.(store := s1.store, executed := n1.executed + 1),
                    n2.(store := s2.store, executed := n2.executed + 1),
                    Answer(p1.command, s1.outcome), Answer(p2.command, s2.outcome), p1.reply, p2.reply, at1, at2,
                    FlatExecute(flat, n1, p1, at1));
    }
  }

  lemma {:induction false} ExecuteAllAgrees(n1: Node, n2: Node, p1: seq<Pending>, p2: seq<Pending>,
                                            at1: Place, at2: Place, flat: map<Inode, seq<Byte>>)
    requires Agree(n1, at1, n2, at2, flat) && StripAll(p1) == StripAll(p2)
    ensures Agree(ExecuteAll(n1, p1, at1), at1, ExecuteAll(n2, p2, at2), at2, FlatExecuteAll(flat, n1, p1, at1))
    decreases |p1|
  {
    hide Execute, SameStores, StripTable, FlatExecute;
    assert |p1| == |StripAll(p1)| == |p2|;
    if p1 != [] && !n1.stopped {
      assert Strip(p1[0]) == StripAll(p1)[0] == Strip(p2[0]);
      assert StripAll(p1[1..]) == StripAll(p1)[1..] == StripAll(p2[1..]);
      ExecuteAgrees(n1, n2, p1[0], p2[0], at1, at2, flat);
      ExecuteAllAgrees(Execute(n1, p1[0], at1), Execute(n2, p2[0], at2), p1[1..], p2[1..], at1, at2,
                       FlatExecute(flat, n1, p1[0], at1));
    }
  }

  lemma ApplyCommandAgrees(n1: Node, n2: Node, c: Cmd, at1: Place, at2: Place, flat: map<Inode, seq<Byte>>)
    requires Agree(n1, at1, n2, at2, flat)
    ensures Agree(ApplyCommand(n1, c, at1), at1, ApplyCommand(n2, c, at2), at2, FlatApply(flat, n1, c, at1))
  {
    hide Process, ExecuteAll, FlatExecuteAll, RespondAll, SameStores, StripTable, ToProcess, LockAnswers;
    var reply1, reply2 := c.id in n1.pendingResponses, c.id in n2.pendingResponses;
    var m1 := n1.(pendingResponses := n1.pendingResponses - {c.id});
    var m2 := n2.(pendingResponses := n2.pendingResponses - {c.id});
    if c.body.None? {
      RespondAgrees(m1, m2, Answer(c.id, Ok(Empty)), Answer(c.id, Ok(Empty)), reply1, reply2, at1, at2, flat);
    } else {
      var p1, p2 := Pending(c.id, c.body.value, reply1), Pending(c.id, c.body.value, reply2);
      StripProcess(n1.table, p1);
      StripProcess(n2.table, p2);
      var r1, r2 := Process(n1.table, p1), Process(n2.table, p2);
      if r1.Some? && r2.Some? {
        SameToProcess(r1.value.events, r2.value.events);
        SameLockAnswers(r1.value.events, r2.value.events);
        var a1, a2 := LockAnswers(r1.value.events), LockAnswers(r2.value.events);
        RespondAllAgrees(m1.(table := r1.value.table), m2.(table := r2.value.table), a1, a2, at1, at2, flat);
        ExecuteAllAgrees(RespondAll(m1.(table := r1.value.table), a1), RespondAll(m2.(table := r2.value.table), a2),
                         ToProcess(r1.value.events), ToProcess(r2.value.events), at1, at2, flat);
      }
    }
  }

  lemma {:induction false} ApplyCommandsAgree(n1: Node, n2: Node, cs: seq<Cmd>, at1: Place, at2: Place,
                                              flat: map<Inode, seq<Byte>>)
    requires Agree(n1, at1, n2, at2, flat)
    ensures Agree(ApplyCommands(n1, cs, at1), at1, ApplyCommands(n2, cs, at2), at2, FlatApplyAll(flat, n1, cs, at1))
    decreases |cs|
  {
    hide ApplyCommand, FlatApply, SameStores, StripTable;
    if cs != [] && !n1.stopped {
      ApplyCommandAgrees(n1, n2, cs[0], at1, at2, flat);
      ApplyCommandsAgree(ApplyCommand(n1, cs[0], at1), ApplyCommand(n2, cs[0], at2), cs[1..], at1, at2,
                         FlatApply(flat, n1, cs[0], at1));
    }
  }

  // ------------------------------------------------------------------ whole runs

  datatype Slot = Slot(index: nat, commands: seq<Cmd>)

  /** Between slots, clients of a node submit commands and ask to be told about slots. */
  datatype Local = Submit(id: nat) | Ask(w: Waiter)

  function LocalStep(n: Node, l: Local): Node {
    match l
    case Submit(id) => n.(pendingResponses := n.pendingResponses + {id})
    case Ask(w) => SyncStep(n, w)
  }

  function LocalSteps(n: Node, ls: seq<Local>): Node
    decreases |ls|
  {
    if ls == [] then n else LocalSteps(LocalStep(n, ls[0]), ls[1..])
  }

  /** A node's run: before each slot some local requests come in. */
  ghost function RunNode(n: Node, slots: seq<Slot>, locals: seq<seq<Local>>, at: Place): Node
    requires |locals| == |slots|
    decreases |slots|
  {
    if slots == [] || n.stopped then n
    else RunNode(Deliver(LocalSteps(n, locals[0]), slots[0].index, slots[0].commands, at), slots[1..], locals[1..], at)
  }

  lemma {:induction false} LocalStepsKeep(n: Node, ls: seq<Local>)
    ensures var n' := LocalSteps(n, ls);
            && n'.store == n.store && n'.table == n.table && n'.results == n.results
            && n'.appliedIndex == n.appliedIndex && n'.stopped == n.stopped
    decreases |ls|
  {
    if ls != [] {
      LocalStepsKeep(LocalStep(n, ls[0]), ls[1..]);
    }
  }

  lemma {:induction false} RunsAgree(n1: Node, n2: Node, slots: seq<Slot>,
                                     locals1: seq<seq<Local>>, locals2: seq<seq<Local>>,
                                     at1: Place, at2: Place, flat: map<Inode, seq<Byte>>)
    returns (flat': map<Inode, seq<Byte>>)
    requires |locals1| == |locals2| == |slots| && Agree(n1, at1, n2, at2, flat)
    ensures Agree(RunNode(n1, slots, locals1, at1), at1, RunNode(n2, slots, locals2, at2), at2, flat')
    decreases |slots|
  {
    hide ApplyCommands, SameStores, StripTable, LocalSteps;
    flat' := flat;
    if slots != [] && !n1.stopped {
      var m1, m2 := LocalSteps(n1, locals1[0]), LocalSteps(n2, locals2[0]);
      LocalStepsKeep(n1, locals1[0]);
      LocalStepsKeep(n2, locals2[0]);
      ApplyCommandsAgree(m1, m2, slots[0].commands, at1, at2, flat);
      flat' := FlatApplyAll(flat, m1, slots[0].commands, at1);
      flat' := RunsAgree(Deliver(m1, slots[0].index, slots[0].commands, at1),
                         Deliver(m2, slots[0].index, slots[0].commands, at2),
                         slots[1..], locals1[1..], locals2[1..], at1, at2, flat');
    }
  }

  function NewNode(start: Inode, groups: nat, now: Timestamp): Node {
    Node(Store(InitialMeta(start, groups, now), map[]), EMPTY, {}, [], 0, 0, multiset{}, [], [], false)
  }

  /** Two replicas started at different times, with different clocks and different clients, that
      apply the same slots agree on the lock table and its queues, on every table but for times, on
      the inode counter and on the result of every command, and they stop alike. */
  lemma ReplicasAgree(start: Inode, groups: nat, now1: Timestamp, now2: Timestamp, slots: seq<Slot>,
                      locals1: seq<seq<Local>>, locals2: seq<seq<Local>>, at1: Place, at2: Place)
    requires |locals1| == |locals2| == |slots| && ROOT_INODE < start && groups > 0
    ensures var n1, n2 := RunNode(NewNode(start, groups, now1), slots, locals1, at1),
                          RunNode(NewNode(start, groups, now2), slots, locals2, at2);
            && n1.table.lockIds == n2.table.lockIds && n1.table.nextId == n2.table.nextId
            && (forall i: Inode :: StripAll(Queue(n1.table, i)) == StripAll(Queue(n2.table, i)))
            && SameButTimes(n1.store.meta, n2.store.meta)
            && TimelessResults(n1.results) == TimelessResults(n2.results)
            && n1.stopped == n2.stopped
  {
    hide RunNode, StripAll, Mirrors;
    var i1, i2 := NewNode(start, groups, now1), NewNode(start, groups, now2);
    assert Agree(i1, at1, i2, at2, map[]) by { NewNodesAgree(start, groups, now1, now2, at1, at2); }
    var flat := RunsAgree(i1, i2, slots, locals1, locals2, at1, at2, map[]);
    var n1, n2 := RunNode(i1, slots, locals1, at1), RunNode(i2, slots, locals2, at2);
    forall i: Inode
      ensures StripAll(Queue(n1.table, i)) == StripAll(Queue(n2.table, i))
    {
      StripBatch(n1.table, i);
      StripBatch(n2.table, i);
    }
  }

  lemma NewNodesAgree(start: Inode, groups: nat, now1: Timestamp, now2: Timestamp, at1: Place, at2: Place)
    requires ROOT_INODE < start && groups > 0
    ensures Agree(NewNode(start, groups, now1), at1, NewNode(start, groups, now2), at2, map[])
  {}
}
