/** Every delivered command is executed and answered once, or still waits for a lock. */
module ReplicaAnswers {
  import opened Types
  import opened Metadata
  import opened FileStore
  import opened LockTable
  import opened LockRuns
  import opened Replica
  import opened Sequences

  /** The commands that some results belong to, and that some requests came in. */
  function Answered(rs: seq<Answer>): (s: seq<nat>)
    ensures |s| == |rs| && forall k :: 0 <= k < |rs| ==> s[k] == rs[k].command
  {
    seq(|rs|, k requires 0 <= k < |rs| => rs[k].command)
  }

  function Commands(ps: seq<Pending>): (s: seq<nat>)
    ensures |s| == |ps| && forall k :: 0 <= k < |ps| ==> s[k] == ps[k].command
  {
    seq(|ps|, k requires 0 <= k < |ps| => ps[k].command)
  }

  function ByTable(answers: seq<(Answer, bool)>): (s: seq<nat>)
    ensures |s| == |answers| && forall k :: 0 <= k < |s| ==> s[k] == answers[k].0.command
  {
    seq(|answers|, k requires 0 <= k < |answers| => answers[k].0.command)
  }

  // ------------------------------------------------------------------ what is to be said

  /** The outcome of a request: that of its metadata transaction, and of a sync whether there is a file. */
  function OutcomeOf(st: Store, r: Request, now: Timestamp): Outcome {
    if r.Fsync? && r.inode != ROOT_INODE then if r.inode in st.files then Ok(Empty) else Err(DoesNotExist)
    else CommitMeta(st.meta, r, now).outcome
  }

  /** What the command of an event is told, and whether its client is here. */
  function Said(st: Store, e: Event, now: Timestamp): (Answer, bool) {
    match e
    case Executes(p) => (Answer(p.command, OutcomeOf(st, p.request, now)), p.reply)
    case Grants(p, _, id) => (Answer(p.command, Ok(LockGranted(id))), p.reply)
    case Frees(p, _) => (Answer(p.command, Ok(Empty)), p.reply)
  }

  ghost function After(st: Store, e: Event, at: Place, k: nat): Store {
    if e.Executes? then CommitStore(st, e.p.request, at.clock(k), at.rank, at.size).store else st
  }

  function Tick(e: Event, k: nat): nat { if e.Executes? then k + 1 else k }

  /** What is told in the course of some events, each on the store that the events before it have left. */
  ghost function Told(st: Store, events: seq<Event>, at: Place, k: nat): multiset<(Answer, bool)>
    decreases |events|
  {
    if events == [] then multiset{}
    else
      var e := events[0];
      multiset{Said(st, e, at.clock(k))} + Told(After(st, e, at, k), events[1..], at, Tick(e, k))
  }

  ghost function StoreAfter(st: Store, events: seq<Event>, at: Place, k: nat): Store
    decreases |events|
  {
    if events == [] then st else StoreAfter(After(st, events[0], at, k), events[1..], at, Tick(events[0], k))
  }

  /** The metadata tables follow the metadata transactions, and the answer is the outcome. */
  lemma OutcomeIsCommitted(st: Store, r: Request, now: Timestamp, rank: nat, n: nat)
    requires rank < n
    ensures var step := CommitStore(st, r, now, rank, n);
            && step.store.meta == CommitMeta(st.meta, r, now).meta
            && (!step.outcome.Panicked? ==> step.outcome == OutcomeOf(st, r, now))
  {
    hide CommitOwner, CommitXattr, CommitLink, CommitInode, HardlinkIncrementStep;
  }

  lemma ToldFirst(st: Store, e: Event, rest: seq<Event>, at: Place, k: nat)
    ensures Told(st, [e] + rest, at, k)
         == multiset{Said(st, e, at.clock(k))} + Told(After(st, e, at, k), rest, at, Tick(e, k))
    ensures StoreAfter(st, [e] + rest, at, k) == StoreAfter(After(st, e, at, k), rest, at, Tick(e, k))
  {
    hide Said, After;
    assert ([e] + rest)[1..] == rest;
  }

  lemma {:induction false} ToldConcat(st: Store, a: seq<Event>, b: seq<Event>, at: Place, k: nat)
    ensures Told(st, a + b, at, k)
         == Told(st, a, at, k) + Told(StoreAfter(st, a, at, k), b, at, k + |ToProcess(a)|)
    decreases |a|
  {
    hide Said, After;
    FirstAndRest(a, b);
    if a != [] {
      ToldConcat(After(st, a[0], at, k), a[1..], b, at, Tick(a[0], k));
    }
  }

  /** The lock table's answers do not depend on what is executed in between. */
  lemma {:induction false} ToldSplit(st: Store, events: seq<Event>, at: Place, k: nat)
    ensures var runs := Executions(ToProcess(events));
            && Told(st, events, at, k) == multiset(LockAnswers(events)) + Told(st, runs, at, k)
            && StoreAfter(st, events, at, k) == StoreAfter(st, runs, at, k)
    decreases |events|
  {
    hide Said, After, Told, StoreAfter, AnswerOf;
    if events == [] {
      assert Told(st, events, at, k) == multiset{} by { NothingTold(st, at, k); }
    } else {
      var e, rest := events[0], events[1..];
      assert events == [e] + rest;
      ToldFirst(st, e, rest, at, k);
      ToldSplit(After(st, e, at, k), rest, at, Tick(e, k));
      var runs := Executions(ToProcess(rest));
      if e.Executes? {
        assert Executions(ToProcess(events)) == [e] + runs;
        ToldFirst(st, e, runs, at, k);
        assert LockAnswers(events) == LockAnswers(rest) by { ByTheTable(st, e, at, k); }
      } else {
        ByTheTable(st, e, at, k);
        assert ToProcess(events) == ToProcess(rest);
        assert LockAnswers(events) == [Said(st, e, at.clock(k))] + LockAnswers(rest);
      }
    }
  }

  lemma NothingTold(st: Store, at: Place, k: nat)
    ensures Told(st, [], at, k) == multiset{} && StoreAfter(st, [], at, k) == st
  {}

  lemma ByTheTable(st: Store, e: Event, at: Place, k: nat)
    ensures AnswerOf(e) == if e.Executes? then [] else [Said(st, e, at.clock(k))]
    ensures !e.Executes? ==> After(st, e, at, k) == st
  {}

  // ------------------------------------------------------------------ what is said

  /** Node n' has the results of node n and those of the given commands besides, with these answers, of
      which its clients have been told those that they wait for. */
  ghost predicate Adds(n: Node, n': Node, ids: multiset<nat>, told: multiset<(Answer, bool)>) {
    && multiset(Answered(n'.results)) == multiset(Answered(n.results)) + ids
    && (forall a :: multiset(n'.results)[a] == multiset(n.results)[a] + told[(a, true)] + told[(a, false)])
    && (forall a :: n'.answers[a] == n.answers[a] + told[(a, true)])
  }

  lemma AddsCompose(n: Node, n1: Node, n2: Node, a: multiset<nat>, b: multiset<nat>,
                    x: multiset<(Answer, bool)>, y: multiset<(Answer, bool)>)
    requires Adds(n, n1, a, x) && Adds(n1, n2, b, y)
    ensures Adds(n, n2, a + b, x + y)
  {}

  lemma AddsNothing(n: Node, n': Node)
    requires n'.results == n.results && n'.answers == n.answers
    ensures Adds(n, n', multiset{}, multiset{})
  {}

  lemma RespondAdds(n: Node, n1: Node, a: Answer, reply: bool)
    requires n1.results == n.results && n1.answers == n.answers
    ensures Adds(n, Respond(n1, a, reply), multiset{a.command}, multiset{(a, reply)})
  {
    assert Answered(n.results + [a]) == Answered(n.results) + [a.command];
    assert multiset(n.results + [a]) == multiset(n.results) + multiset{a};
  }

  /** What responding leaves alone. */
  ghost predicate SameRest(n: Node, n': Node) {
    && n'.table == n.table && n'.stopped == n.stopped && n'.store == n.store && n'.executed == n.executed
    && n'.pendingResponses == n.pendingResponses
  }

  lemma {:induction false} RespondAllAdds(n: Node, answers: seq<(Answer, bool)>)
    ensures Adds(n, RespondAll(n, answers), multiset(ByTable(answers)), multiset(answers))
    ensures SameRest(n, RespondAll(n, answers))
    decreases |answers|
  {
    hide Adds, Respond, ByTable;
    if answers == [] {
      AddsNothing(n, n);
      assert ByTable(answers) == [];
    } else {
      var a, reply, rest := answers[0].0, answers[0].1, answers[1..];
      var n1 := Respond(n, a, reply);
      RespondAdds(n, n, a, reply);
      RespondKeeps(n, a, reply);
      RespondAllAdds(n1, rest);
      AddsCompose(n, n1, RespondAll(n1, rest), multiset{a.command}, multiset(ByTable(rest)),
                  multiset{answers[0]}, multiset(rest));
      assert answers == [answers[0]] + rest;
      OneAnswer(answers[0], rest);
    }
  }

  lemma RespondKeeps(n: Node, a: Answer, reply: bool)
    ensures SameRest(n, Respond(n, a, reply))
  {}

  lemma {:induction false} ExecuteAllAdds(n: Node, ps: seq<Pending>, at: Place)
    requires !ExecuteAll(n, ps, at).stopped
    ensures var n', runs := ExecuteAll(n, ps, at), Executions(ps);
            && Adds(n, n', multiset(Commands(ps)), Told(n.store, runs, at, n.executed))
            && n'.table == n.table && n'.pendingResponses == n.pendingResponses
            && n'.store == StoreAfter(n.store, runs, at, n.executed) && n'.executed == n.executed + |ps|
    decreases |ps|
  {
    hide Adds, Execute, Said, After, Told, StoreAfter, Commands, Executions;
    if ps == [] {
      AddsNothing(n, n);
      NothingTold(n.store, at, n.executed);
      assert Commands(ps) == [] && Executions(ps) == [] by { NoRuns(); }
    } else {
      var n1, e, runs := Execute(n, ps[0], at), Executes(ps[0]), Executions(ps[1..]);
      ExecuteAdds(n, ps[0], at);
      ExecuteAllAdds(n1, ps[1..], at);
      var said, told := multiset{Said(n.store, e, at.clock(n.executed))}, Told(n1.store, runs, at, n1.executed);
      AddsCompose(n, n1, ExecuteAll(n1, ps[1..], at), multiset{ps[0].command}, multiset(Commands(ps[1..])), said, told);
      assert multiset(Commands(ps)) == multiset{ps[0].command} + multiset(Commands(ps[1..])) by { FirstCommand(ps); }
      assert Executions(ps) == [e] + runs by { FirstRun(ps); }
      assert Told(n.store, Executions(ps), at, n.executed) == said + told
          && StoreAfter(n.store, Executions(ps), at, n.executed) == StoreAfter(n1.store, runs, at, n1.executed) by {
        ToldFirst(n.store, e, runs, at, n.executed);
      }
    }
  }

  lemma NoRuns()
    ensures Commands([]) == [] && Executions([]) == []
  {}

  lemma FirstRun(ps: seq<Pending>)
    requires ps != []
    ensures Executions(ps) == [Executes(ps[0])] + Executions(ps[1..])
  {}

  lemma ExecuteAdds(n: Node, p: Pending, at: Place)
    requires !Execute(n, p, at).stopped
    ensures var n', e := Execute(n, p, at), Executes(p);
            && Adds(n, n', multiset{p.command}, multiset{Said(n.store, e, at.clock(n.executed))})
            && n'.table == n.table && n'.pendingResponses == n.pendingResponses
            && n'.store == After(n.store, e, at, n.executed) && n'.executed == n.executed + 1
  {
    hide Adds, CommitStore, OutcomeOf, Respond;
    var now := at.clock(n.executed);
    var step := CommitStore(n.store, p.request, now, at.rank, at.size);
    var a, n1 := Answer(p.command, step.outcome), n.(store := step.store, executed := n.executed + 1);
    OutcomeIsCommitted(n.store, p.request, now, at.rank, at.size);
    assert Execute(n, p, at) == Respond(n1, a, p.reply) && Said(n.store, Executes(p), now) == (a, p.reply) by {
      RespondKeeps(n1, a, p.reply);
    }
    RespondAdds(n, n1, a, p.reply);
    RespondKeeps(n1, a, p.reply);
  }

  /** What a delivery serves is answered by the lock table or executed. */
  lemma {:induction false} ServedOnceEach(events: seq<Event>)
    ensures multiset(Commands(Served(events)))
         == multiset(ByTable(LockAnswers(events))) + multiset(Commands(ToProcess(events)))
    decreases |events|
  {
    if events != [] {
      var e, rest := events[0], events[1..];
      ServedOnceEach(rest);
      hide Commands, ByTable;
      CommandsConcat([e.p], Served(rest));
      OneCommand(e.p);
      if e.Executes? {
        CommandsConcat([e.p], ToProcess(rest));
        assert LockAnswers(events) == LockAnswers(rest);
      } else {
        OneAnswer(AnswerOf(e)[0], LockAnswers(rest));
        assert ToProcess(events) == ToProcess(rest);
      }
    }
  }

  lemma FirstCommand(ps: seq<Pending>)
    requires ps != []
    ensures multiset(Commands(ps)) == multiset{ps[0].command} + multiset(Commands(ps[1..]))
  {
    assert Commands(ps) == [ps[0].command] + Commands(ps[1..]);
  }

  lemma OneCommand(p: Pending)
    ensures multiset(Commands([p])) == multiset{p.command}
  {
    assert Commands([p]) == [p.command];
  }

  lemma OneAnswer(a: (Answer, bool), rest: seq<(Answer, bool)>)
    ensures multiset(ByTable([a] + rest)) == multiset{a.0.command} + multiset(ByTable(rest))
  {
    assert ByTable([a] + rest) == [a.0.command] + ByTable(rest);
  }

  lemma CommandAdds(n: Node, c: Cmd, at: Place)
    requires c.body.Some? && !ApplyCommand(n, c, at).stopped
    ensures var r := Process(n.table, Pending(c.id, c.body.value, c.id in n.pendingResponses));
            var n' := ApplyCommand(n, c, at);
            && r.Some? && n'.table == r.value.table && n'.pendingResponses == n.pendingResponses - {c.id}
            && Adds(n, n', multiset(Commands(Served(r.value.events))), Told(n.store, r.value.events, at, n.executed))
            && n'.store == StoreAfter(n.store, r.value.events, at, n.executed)
            && n'.executed == n.executed + |ToProcess(r.value.events)|
  {
    hide Process, Adds, ExecuteAll, RespondAll, ToProcess, LockAnswers, Served, Told, StoreAfter, Executions;
    var pr := Process(n.table, Pending(c.id, c.body.value, c.id in n.pendingResponses)).value;
    var n1 := n.(pendingResponses := n.pendingResponses - {c.id}, table := pr.table);
    var n2, runs := RespondAll(n1, LockAnswers(pr.events)), ToProcess(pr.events);
    AddsNothing(n, n1);
    RespondAllAdds(n1, LockAnswers(pr.events));
    AddsCompose(n, n1, n2, multiset{}, multiset(ByTable(LockAnswers(pr.events))),
                multiset{}, multiset(LockAnswers(pr.events)));
    ExecuteAllAdds(n2, runs, at);
    AddsCompose(n, n2, ExecuteAll(n2, runs, at),
                multiset{} + multiset(ByTable(LockAnswers(pr.events))), multiset(Commands(runs)),
                multiset{} + multiset(LockAnswers(pr.events)), Told(n.store, Executions(runs), at, n.executed));
    ServedOnceEach(pr.events);
    ToldSplit(n.store, pr.events, at, n.executed);
    assert (multiset{} + multiset(ByTable(LockAnswers(pr.events)))) + multiset(Commands(runs))
        == multiset(Commands(Served(pr.events)));
    assert (multiset{} + multiset(LockAnswers(pr.events))) + Told(n.store, Executions(runs), at, n.executed)
        == Told(n.store, pr.events, at, n.executed);
  }

  // ------------------------------------------------------------------ all commands

  /** The delivered requests, and whether their clients are here. */
  function LogOf(waiting: set<nat>, cs: seq<Cmd>): seq<Pending>
    decreases |cs|
  {
    if cs == [] then []
    else (if cs[0].body.Some? then [Pending(cs[0].id, cs[0].body.value, cs[0].id in waiting)] else [])
         + LogOf(waiting - {cs[0].id}, cs[1..])
  }

  function Barriers(cs: seq<Cmd>): seq<nat> {
    if cs == [] then [] else (if cs[0].body.None? then [cs[0].id] else []) + Barriers(cs[1..])
  }

  /** What barriers are told. */
  function Passed(waiting: set<nat>, cs: seq<Cmd>): multiset<(Answer, bool)>
    decreases |cs|
  {
    if cs == [] then multiset{}
    else (if cs[0].body.None? then multiset{(Answer(cs[0].id, Ok(Empty)), cs[0].id in waiting)} else multiset{})
         + Passed(waiting - {cs[0].id}, cs[1..])
  }

  /** The results that a run adds: those of its barriers and of the requests it serves. */
  ghost function Due(events: seq<Event>, cs: seq<Cmd>): multiset<nat> {
    multiset(Commands(Served(events))) + multiset(Barriers(cs))
  }

  /** A node that has not stopped has the results of exactly the barriers and the served requests: for
      each execution its outcome on the store left by those before, for each grant the lock id.  Its
      clients have been told exactly the results that they wait for. */
  ghost predicate Reported(n: Node, cs: seq<Cmd>, at: Place) {
    var r := ProcessAll(n.table, LogOf(n.pendingResponses, cs));
    && r.Some? && ApplyCommands(n, cs, at).table == r.value.table
    && Adds(n, ApplyCommands(n, cs, at), Due(r.value.events, cs),
            Told(n.store, r.value.events, at, n.executed) + Passed(n.pendingResponses, cs))
  }

  lemma {:induction false} ResultsAreServed(n: Node, cs: seq<Cmd>, at: Place)
    requires !n.stopped && !ApplyCommands(n, cs, at).stopped
    ensures Reported(n, cs, at)
    decreases |cs|
  {
    hide Reported, ApplyCommand;
    if cs == [] {
      NothingReported(n, at);
    } else {
      ResultsAreServed(ApplyCommand(n, cs[0], at), cs[1..], at);
      if cs[0].body.None? {
        BarrierFirst(n, cs, at);
      } else {
        RequestFirst(n, cs, at);
      }
    }
  }

  lemma NothingReported(n: Node, at: Place)
    ensures Reported(n, [], at)
  {
    hide Adds, Told;
    AddsNothing(n, n);
    NothingTold(n.store, at, n.executed);
    assert Told(n.store, [], at, n.executed) + Passed(n.pendingResponses, []) == multiset{};
    assert Due([], []) == multiset{};
  }

  lemma BarrierFirst(n: Node, cs: seq<Cmd>, at: Place)
    requires !n.stopped && cs != [] && cs[0].body.None? && Reported(ApplyCommand(n, cs[0], at), cs[1..], at)
    ensures Reported(n, cs, at)
  {
    hide Adds, ApplyCommand, Due, Told, ProcessAll;
    var c, n1 := cs[0], ApplyCommand(n, cs[0], at);
    BarrierAdds(n, c, at);
    var rest, said := LogOf(n1.pendingResponses, cs[1..]), Passed(n1.pendingResponses, cs[1..]);
    var more := ProcessAll(n1.table, rest).value.events;
    var told := Told(n1.store, more, at, n1.executed);
    var first := multiset{(Answer(c.id, Ok(Empty)), c.id in n.pendingResponses)};
    AddsCompose(n, n1, ApplyCommands(n1, cs[1..], at), multiset{c.id}, Due(more, cs[1..]), first, told + said);
    assert multiset{c.id} + Due(more, cs[1..]) == Due(more, cs) by { DueBarrier(more, cs); }
    assert LogOf(n.pendingResponses, cs) == rest;
    assert first + (told + said) == told + Passed(n.pendingResponses, cs) by { Shuffle(first, told, said); }
  }

  lemma RequestFirst(n: Node, cs: seq<Cmd>, at: Place)
    requires !n.stopped && cs != [] && cs[0].body.Some? && Reported(ApplyCommand(n, cs[0], at), cs[1..], at)
    requires !ApplyCommand(n, cs[0], at).stopped
    ensures Reported(n, cs, at)
  {
    hide Adds, ApplyCommand, Due, Told, StoreAfter, Served, Commands, ToProcess, Process, LogOf, Passed, ProcessAll;
    var c, n1 := cs[0], ApplyCommand(n, cs[0], at);
    CommandAdds(n, c, at);
    var p := Pending(c.id, c.body.value, c.id in n.pendingResponses);
    var rest, said := LogOf(n1.pendingResponses, cs[1..]), Passed(n1.pendingResponses, cs[1..]);
    var first, more := Process(n.table, p).value.events, ProcessAll(n1.table, rest).value.events;
    var was, told := Told(n.store, first, at, n.executed), Told(n1.store, more, at, n1.executed);
    AddsCompose(n, n1, ApplyCommands(n1, cs[1..], at), multiset(Commands(Served(first))), Due(more, cs[1..]),
                was, told + said);
    assert multiset(Commands(Served(first))) + Due(more, cs[1..]) == Due(first + more, cs) by {
      DueRequest(first, more, cs);
    }
    LogFirst(n, cs, p, rest);
    assert was + (told + said) == Told(n.store, first + more, at, n.executed) + Passed(n.pendingResponses, cs) by {
      ToldConcat(n.store, first, more, at, n.executed);
      Regroup(was, told, said);
    }
  }

  lemma LogFirst(n: Node, cs: seq<Cmd>, p: Pending, rest: seq<Pending>)
    requires cs != [] && cs[0].body.Some? && p == Pending(cs[0].id, cs[0].body.value, cs[0].id in n.pendingResponses)
    requires rest == LogOf(n.pendingResponses - {cs[0].id}, cs[1..])
    ensures Passed(n.pendingResponses, cs) == multiset{} + Passed(n.pendingResponses - {cs[0].id}, cs[1..])
    ensures var r := Process(n.table, p);
            r.Some? && ProcessAll(r.value.table, rest).Some? ==>
              var r' := ProcessAll(n.table, LogOf(n.pendingResponses, cs));
              && r'.Some? && r'.value.table == ProcessAll(r.value.table, rest).value.table
              && r'.value.events == r.value.events + ProcessAll(r.value.table, rest).value.events
  {
    hide Process;
    assert LogOf(n.pendingResponses, cs) == [p] + rest && ([p] + rest)[1..] == rest;
  }

  lemma Shuffle<T>(a: multiset<T>, b: multiset<T>, c: multiset<T>)
    ensures a + (b + c) == b + (a + c)
  {}

  lemma Regroup<T>(a: multiset<T>, b: multiset<T>, c: multiset<T>)
    ensures a + (b + c) == (a + b) + (multiset{} + c)
  {}

  lemma DueBarrier(events: seq<Event>, cs: seq<Cmd>)
    requires cs != [] && cs[0].body.None?
    ensures multiset{cs[0].id} + Due(events, cs[1..]) == Due(events, cs)
  {
    assert Barriers(cs) == [cs[0].id] + Barriers(cs[1..]);
  }

  lemma DueRequest(first: seq<Event>, more: seq<Event>, cs: seq<Cmd>)
    requires cs != [] && cs[0].body.Some?
    ensures multiset(Commands(Served(first))) + Due(more, cs[1..]) == Due(first + more, cs)
  {
    hide Served, Commands;
    ServedConcat(first, more);
    CommandsConcat(Served(first), Served(more));
    assert Barriers(cs) == Barriers(cs[1..]);
  }

  lemma CommandsConcat(a: seq<Pending>, b: seq<Pending>)
    ensures multiset(Commands(a + b)) == multiset(Commands(a)) + multiset(Commands(b))
  {
    assert Commands(a + b) == Commands(a) + Commands(b);
  }

  lemma BarrierAdds(n: Node, c: Cmd, at: Place)
    requires c.body.None?
    ensures var n' := ApplyCommand(n, c, at);
            && Adds(n, n', multiset{c.id}, multiset{(Answer(c.id, Ok(Empty)), c.id in n.pendingResponses)})
            && n'.table == n.table && n'.pendingResponses == n.pendingResponses - {c.id}
            && n'.store == n.store && n'.executed == n.executed
  {
    hide Adds;
    RespondAdds(n, n.(pendingResponses := n.pendingResponses - {c.id}), Answer(c.id, Ok(Empty)),
                c.id in n.pendingResponses);
  }

  // ------------------------------------------------------------------ once each

  ghost predicate DistinctIds(cs: seq<Cmd>) {
    forall j, k :: 0 <= j < k < |cs| ==> cs[j].id != cs[k].id
  }

  lemma {:induction false} LogHas(waiting: set<nat>, cs: seq<Cmd>, p: Pending)
    ensures p in LogOf(waiting, cs) ==>
              exists k :: 0 <= k < |cs| && cs[k].id == p.command && cs[k].body == Some(p.request)
    decreases |cs|
  {
    if cs != [] {
      LogHas(waiting - {cs[0].id}, cs[1..], p);
      if p in LogOf(waiting - {cs[0].id}, cs[1..]) {
        var k :| 0 <= k < |cs[1..]| && cs[1..][k].id == p.command && cs[1..][k].body == Some(p.request);
        assert cs[k + 1] == cs[1..][k];
      }
    }
  }

  /** Where the ids are distinct, the request of a command is in the log once. */
  lemma {:induction false} LogOnce(waiting: set<nat>, cs: seq<Cmd>, k: nat) returns (p: Pending)
    requires DistinctIds(cs) && k < |cs| && cs[k].body.Some?
    ensures p.command == cs[k].id && p.request == cs[k].body.value && multiset(LogOf(waiting, cs))[p] == 1
    ensures forall q :: q in LogOf(waiting, cs) && q.command == p.command ==> q == p
    decreases |cs|
  {
    var rest := LogOf(waiting - {cs[0].id}, cs[1..]);
    if k == 0 {
      p := Pending(cs[0].id, cs[0].body.value, cs[0].id in waiting);
      forall q | q in rest
        ensures q.command != p.command
      {
        LogHas(waiting - {cs[0].id}, cs[1..], q);
      }
      assert LogOf(waiting, cs) == [p] + rest;
    } else {
      p := LogOnce(waiting - {cs[0].id}, cs[1..], k - 1);
      if cs[0].body.Some? {
        var first := Pending(cs[0].id, cs[0].body.value, cs[0].id in waiting);
        assert LogOf(waiting, cs) == [first] + rest;
        assert first.command != p.command;
      } else {
        assert LogOf(waiting, cs) == rest;
      }
    }
  }

  lemma {:induction false} CommandCount(ps: seq<Pending>, p: Pending)
    requires forall q :: q in ps && q.command == p.command ==> q == p
    ensures multiset(Commands(ps))[p.command] == multiset(ps)[p]
  {
    if ps != [] {
      CommandCount(ps[1..], p);
      assert ps == [ps[0]] + ps[1..];
      assert Commands(ps) == [ps[0].command] + Commands(ps[1..]);
    }
  }

  lemma {:induction false} BarrierCount(cs: seq<Cmd>, id: nat)
    ensures id in Barriers(cs) ==> exists k :: 0 <= k < |cs| && cs[k].id == id && cs[k].body.None?
  {
    if cs != [] {
      BarrierCount(cs[1..], id);
      if id in Barriers(cs[1..]) {
        var k :| 0 <= k < |cs[1..]| && cs[1..][k].id == id && cs[1..][k].body.None?;
        assert cs[k + 1] == cs[1..][k];
      }
    }
  }

  /** Answers are heard exactly where a client waits. */
  ghost predicate Flags(told: multiset<(Answer, bool)>, waiting: set<nat>) {
    forall x :: x in told ==> x.1 == (x.0.command in waiting)
  }

  lemma {:induction false} ToldFlags(st: Store, events: seq<Event>, at: Place, k: nat, waiting: set<nat>)
    requires forall j :: 0 <= j < |events| ==> events[j].p.reply == (events[j].p.command in waiting)
    ensures Flags(Told(st, events, at, k), waiting)
    decreases |events|
  {
    hide OutcomeOf, After;
    if events != [] {
      ToldFlags(After(st, events[0], at, k), events[1..], at, Tick(events[0], k), waiting);
    }
  }

  lemma {:induction false} LogFlags(left: set<nat>, cs: seq<Cmd>, waiting: set<nat>)
    requires DistinctIds(cs) && forall k :: 0 <= k < |cs| ==> (cs[k].id in left <==> cs[k].id in waiting)
    ensures Flags(Passed(left, cs), waiting)
    ensures forall p :: p in LogOf(left, cs) ==> p.reply == (p.command in waiting)
    decreases |cs|
  {
    if cs != [] {
      assert forall k :: 0 <= k < |cs[1..]| ==> cs[1..][k] == cs[k + 1] && cs[k + 1].id != cs[0].id;
      LogFlags(left - {cs[0].id}, cs[1..], waiting);
    }
  }

  /** A fresh replica that has applied some commands without stopping has the result of each request
      exactly once, or the request waits in the queue of its inode, which is locked; and it has told
      its clients exactly the results of the commands that they wait for. */
  lemma EachCommandOnce(n: Node, cs: seq<Cmd>, at: Place, k: nat)
    requires !n.stopped && n.table == EMPTY && n.results == [] && n.answers == multiset{}
    requires !ApplyCommands(n, cs, at).stopped && DistinctIds(cs) && k < |cs| && cs[k].body.Some?
    ensures var n' := ApplyCommands(n, cs, at);
            var done := multiset(Answered(n'.results))[cs[k].id];
            && done <= 1
            && (done == 0 ==> exists i: Inode, p: Pending :: p.command == cs[k].id && p.request == cs[k].body.value
                                             && p in Queue(n'.table, i) && i in n'.table.lockIds)
            && forall a :: n'.answers[a] == if a.command in n.pendingResponses then multiset(n'.results)[a] else 0
  {
    hide ApplyCommands, ProcessAll, Served, Process, Told, Passed, LogOf;
    ResultsAreServed(n, cs, at);
    var log, n' := LogOf(n.pendingResponses, cs), ApplyCommands(n, cs, at);
    var pr := ProcessAll(EMPTY, log).value;
    var p := LogOnce(n.pendingResponses, cs, k);
    RequestsConserved(log, p);
    ServedFromLog(log, p);
    CommandCount(Served(pr.events), p);
    BarrierCount(cs, p.command);
    assert multiset(Barriers(cs))[p.command] == 0;
    HeardByClients(n, cs, at);
    if multiset(Served(pr.events))[p] == 0 {
      var i := WaitsFor(p).value;
      assert p in Queue(n'.table, i);
      FirstComeFirstServed(log, i);
    }
  }

  lemma HeardByClients(n: Node, cs: seq<Cmd>, at: Place)
    requires !n.stopped && n.table == EMPTY && n.results == [] && n.answers == multiset{}
    requires !ApplyCommands(n, cs, at).stopped && DistinctIds(cs)
    ensures var n' := ApplyCommands(n, cs, at);
            forall a :: n'.answers[a] == if a.command in n.pendingResponses then multiset(n'.results)[a] else 0
  {
    hide ApplyCommands, ProcessAll, Process, Told, Passed, LogOf, Served;
    ResultsAreServed(n, cs, at);
    var waiting, log := n.pendingResponses, LogOf(n.pendingResponses, cs);
    var events := ProcessAll(EMPTY, log).value.events;
    LogFlags(waiting, cs, waiting);
    forall j | 0 <= j < |events|
      ensures events[j].p.reply == (events[j].p.command in waiting)
    {
      EventFromLog(log, events, j);
    }
    ToldFlags(n.store, events, at, n.executed, waiting);
  }

  lemma EventFromLog(log: seq<Pending>, events: seq<Event>, j: nat)
    requires ProcessAll(EMPTY, log).Some? && events == ProcessAll(EMPTY, log).value.events && j < |events|
    ensures events[j].p in log
  {
    hide ProcessAll;
    ServedAt(events, j);
    RequestsConserved(log, events[j].p);
    assert multiset(log)[events[j].p] > 0;
  }

  lemma {:induction false} ServedAt(events: seq<Event>, j: nat)
    requires j < |events|
    ensures events[j].p in Served(events)
  {
    if j > 0 {
      ServedAt(events[1..], j - 1);
    }
  }

  lemma ServedFromLog(log: seq<Pending>, p: Pending)
    requires ProcessAll(EMPTY, log).Some?
    requires forall q :: q in log && q.command == p.command ==> q == p
    ensures forall q :: q in Served(ProcessAll(EMPTY, log).value.events) && q.command == p.command ==> q == p
  {
    hide ProcessAll, Served;
    forall q | q in Served(ProcessAll(EMPTY, log).value.events)
      ensures q in log
    {
      RequestsConserved(log, q);
      assert multiset(log)[q] > 0;
    }
  }
}
