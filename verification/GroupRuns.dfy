/** A group of replicas that work through one log: what each has answered at which position. */
module GroupRuns {
  import opened Striping
  import opened Types
  import opened Metadata
  import opened FileStore
  import opened LockTable
  import opened LockRuns
  import opened Replica
  import opened ReplicaAnswers
  import opened ReplicaDeterminism
  import opened Sequences

  /** A group of replicas: their ranks, clocks and when they started. */
  datatype AnyGroup = Group(start: Inode, groups: nat, places: seq<Place>, births: seq<Timestamp>)

  type Group = g: AnyGroup | ValidGroup(g)
    witness AnyGroup.Group(2, 1, [Place(0, 1, _ => Timestamp(0, 0))], [Timestamp(0, 0)])

  predicate ValidGroup(g: AnyGroup) {
    && ROOT_INODE < g.start && g.groups > 0 && |g.places| > 0 && |g.births| == |g.places|
    && forall q :: 0 <= q < |g.places| ==> g.places[q].rank == q && g.places[q].size == |g.places|
  }

  /** Replica q after the first p commands, and the flat files after them. */
  ghost function NodeAt(g: Group, q: nat, cmds: seq<Cmd>, p: nat): Node
    requires q < |g.places| && p <= |cmds|
  {
    ApplyCommands(NewNode(g.start, g.groups, g.births[q]), cmds[..p], g.places[q])
  }

  ghost function FlatAt(g: Group, cmds: seq<Cmd>, p: nat): map<Inode, seq<Byte>>
    requires p <= |cmds|
  {
    FlatApplyAll(map[], NewNode(g.start, g.groups, g.births[0]), cmds[..p], g.places[0])
  }

  /** At any position, every replica holds its stripes of the flat files at that position. */
  lemma MirrorsAt(g: Group, q: nat, cmds: seq<Cmd>, p: nat)
    requires q < |g.places| && p <= |cmds|
    ensures Mirrors(NodeAt(g, q, cmds, p).store, FlatAt(g, cmds, p), q, |g.places|)
  {
    hide ApplyCommands, FlatApplyAll, Mirrors, NewNode, StripTable;
    NewNodesAgree(g.start, g.groups, g.births[0], g.births[q], g.places[0], g.places[q]);
    ApplyCommandsAgree(NewNode(g.start, g.groups, g.births[0]), NewNode(g.start, g.groups, g.births[q]), cmds[..p],
                       g.places[0], g.places[q], map[]);
  }

  // ------------------------------------------------------------------ results are never taken back

  lemma {:induction false} ApplyConcat(n: Node, a: seq<Cmd>, b: seq<Cmd>, at: Place, flat: map<Inode, seq<Byte>>)
    ensures ApplyCommands(n, a + b, at) == ApplyCommands(ApplyCommands(n, a, at), b, at)
    ensures FlatApplyAll(flat, n, a + b, at)
         == FlatApplyAll(FlatApplyAll(flat, n, a, at), ApplyCommands(n, a, at), b, at)
    decreases |a|
  {
    hide ApplyCommand, FlatApply;
    if a == [] {
      assert a + b == b;
    } else if !n.stopped {
      assert (a + b)[1..] == a[1..] + b;
      ApplyConcat(ApplyCommand(n, a[0], at), a[1..], b, at, FlatApply(flat, n, a[0], at));
    }
  }

  lemma {:induction false} RespondAllGrows(n: Node, answers: seq<(Answer, bool)>)
    ensures n.results <= RespondAll(n, answers).results
    decreases |answers|
  {
    if answers != [] {
      RespondAllGrows(Respond(n, answers[0].0, answers[0].1), answers[1..]);
    }
  }

  lemma {:induction false} ExecuteAllGrows(n: Node, ps: seq<Pending>, at: Place)
    ensures n.results <= ExecuteAll(n, ps, at).results
    decreases |ps|
  {
    hide CommitStore;
    if ps != [] && !n.stopped {
      ExecuteAllGrows(Execute(n, ps[0], at), ps[1..], at);
    }
  }

  lemma CommandGrows(n: Node, c: Cmd, at: Place)
    ensures n.results <= ApplyCommand(n, c, at).results
  {
    hide Process, ExecuteAll, RespondAll, ToProcess, LockAnswers;
    if c.body.Some? {
      var r := Process(n.table, Pending(c.id, c.body.value, c.id in n.pendingResponses));
      if r.Some? {
        var n1 := n.(pendingResponses := n.pendingResponses - {c.id}, table := r.value.table);
        RespondAllGrows(n1, LockAnswers(r.value.events));
        ExecuteAllGrows(RespondAll(n1, LockAnswers(r.value.events)), ToProcess(r.value.events), at);
      }
    }
  }

  lemma {:induction false} CommandsGrow(n: Node, cs: seq<Cmd>, at: Place)
    ensures n.results <= ApplyCommands(n, cs, at).results
    decreases |cs|
  {
    hide ApplyCommand;
    if cs != [] && !n.stopped {
      CommandGrows(n, cs[0], at);
      CommandsGrow(ApplyCommand(n, cs[0], at), cs[1..], at);
    }
  }

  // ------------------------------------------------------------------ who has answered what

  /** Replica q has the result of command c once it has worked through p commands of the log. */
  ghost predicate HasAnswered(g: Group, q: nat, log: seq<Cmd>, p: nat, c: nat) {
    q < |g.places| && p <= |log| && c in Answered(NodeAt(g, q, log, p).results)
  }

  lemma AnsweredGrows(rs: seq<Answer>, rs': seq<Answer>, c: nat)
    requires rs <= rs' && c in Answered(rs)
    ensures c in Answered(rs')
  {
    var k :| 0 <= k < |rs| && Answered(rs)[k] == c;
    assert Answered(rs')[k] == c;
  }

  /** Further on in the log it still has it. */
  lemma AnswersStay(g: Group, q: nat, log: seq<Cmd>, p: nat, p': nat, c: nat)
    requires p <= p' <= |log| && HasAnswered(g, q, log, p, c)
    ensures HasAnswered(g, q, log, p', c)
  {
    hide ApplyCommands, Answered;
    var n, at := NewNode(g.start, g.groups, g.births[q]), g.places[q];
    assert log[..p'] == log[..p] + log[p..p'];
    ApplyConcat(n, log[..p], log[p..p'], at, map[]);
    CommandsGrow(NodeAt(g, q, log, p), log[p..p'], at);
    AnsweredGrows(NodeAt(g, q, log, p).results, NodeAt(g, q, log, p').results, c);
  }

  /** At the same position every other replica has it too. */
  lemma AnswersAgree(g: Group, q: nat, r: nat, log: seq<Cmd>, p: nat, c: nat)
    requires r < |g.places| && HasAnswered(g, q, log, p, c)
    ensures HasAnswered(g, r, log, p, c)
  {
    hide ApplyCommands, FlatApplyAll, SameStores, NewNode, StripTable;
    NewNodesAgree(g.start, g.groups, g.births[q], g.births[r], g.places[q], g.places[r]);
    ApplyCommandsAgree(NewNode(g.start, g.groups, g.births[q]), NewNode(g.start, g.groups, g.births[r]), log[..p],
                       g.places[q], g.places[r], map[]);
    SameAnswered(NodeAt(g, q, log, p).results, NodeAt(g, r, log, p).results, c);
  }

  lemma SameAnswered(rs: seq<Answer>, rs': seq<Answer>, c: nat)
    requires TimelessResults(rs) == TimelessResults(rs') && c in Answered(rs)
    ensures c in Answered(rs')
  {
    var k :| 0 <= k < |rs| && Answered(rs)[k] == c;
    assert |rs'| == |TimelessResults(rs')| == |rs|;
    assert TimelessAnswer(rs[k]) == TimelessResults(rs)[k] == TimelessAnswer(rs'[k]);
    assert Answered(rs')[k] == c;
  }

  /** What is decided later does not matter. */
  lemma AnswersKept(g: Group, q: nat, log: seq<Cmd>, more: seq<Cmd>, p: nat, c: nat)
    requires q < |g.places| && p <= |log|
    ensures HasAnswered(g, q, log, p, c) <==> HasAnswered(g, q, log + more, p, c)
  {
    assert (log + more)[..p] == log[..p];
  }

  // ------------------------------------------------------------------ only commands of the log are answered

  /** All results and all waiting requests are of these commands. */
  ghost predicate OnlyFrom(n: Node, ids: set<nat>) {
    && (forall k :: 0 <= k < |n.results| ==> n.results[k].command in ids)
    && WaitFrom(n.table, ids)
  }

  ghost predicate WaitFrom(t: Table, ids: set<nat>) {
    forall i: Inode, k :: 0 <= k < |Queue(t, i)| ==> Queue(t, i)[k].command in ids
  }

  ghost predicate ServedFrom(ps: seq<Pending>, ids: set<nat>) {
    forall k :: 0 <= k < |ps| ==> ps[k].command in ids
  }

  lemma ProcessFrom(t: Table, p: Pending, ids: set<nat>)
    requires WaitFrom(t, ids) && p.command in ids && Process(t, p).Some?
    ensures WaitFrom(Process(t, p).value.table, ids) && ServedFrom(Served(Process(t, p).value.events), ids)
  {
    hide BatchSize, UnlockEvents, Batch, EndsInLock;
    if p.request.Unlock? {
      var i := p.request.inode;
      UnlockServes(t, p, i);
      BatchFrom(t, i, ids);
      AfterUnlockFrom(t, i, ids);
    } else {
      assert Served([Executes(p)]) == [p];
      if p.request.Lock? {
        assert Served([Grants(p, p.request.inode, t.nextId)]) == [p];
      }
      var t' := Process(t, p).value.table;
      forall i: Inode, k | 0 <= k < |Queue(t', i)|
        ensures Queue(t', i)[k].command in ids
      {
        assert Queue(t', i) == Queue(t, i) || Queue(t', i) == Queue(t, i) + [p];
      }
    }
  }

  lemma BatchFrom(t: Table, i: Inode, ids: set<nat>)
    requires WaitFrom(t, ids)
    ensures ServedFrom(Batch(t, i), ids)
  {
    hide BatchSize;
  }

  lemma AfterUnlockFrom(t: Table, i: Inode, ids: set<nat>)
    requires WaitFrom(t, ids)
    ensures WaitFrom(AfterUnlock(t, i), ids)
  {
    hide BatchSize, EndsInLock;
    forall j: Inode, k | 0 <= k < |Queue(AfterUnlock(t, i), j)|
      ensures Queue(AfterUnlock(t, i), j)[k].command in ids
    {
      if j == i && i in t.pending {
        assert Queue(AfterUnlock(t, i), j)[k] == Queue(t, i)[|Batch(t, i)| + k];
      } else {
        assert Queue(AfterUnlock(t, i), j) == Queue(t, j);
      }
    }
  }

  lemma {:induction false} AnswersFrom(events: seq<Event>, ids: set<nat>)
    requires ServedFrom(Served(events), ids)
    ensures forall k :: 0 <= k < |LockAnswers(events)| ==> LockAnswers(events)[k].0.command in ids
    ensures ServedFrom(ToProcess(events), ids)
    decreases |events|
  {
    if events != [] {
      assert Served(events)[0] == events[0].p && Served(events)[1..] == Served(events[1..]);
      assert forall k :: 0 <= k < |Served(events[1..])| ==> Served(events[1..])[k] == Served(events)[k + 1];
      AnswersFrom(events[1..], ids);
    }
  }

  lemma {:induction false} RespondAllFrom(n: Node, answers: seq<(Answer, bool)>, ids: set<nat>)
    requires OnlyFrom(n, ids) && forall k :: 0 <= k < |answers| ==> answers[k].0.command in ids
    ensures OnlyFrom(RespondAll(n, answers), ids)
    decreases |answers|
  {
    if answers != [] {
      RespondAllFrom(Respond(n, answers[0].0, answers[0].1), answers[1..], ids);
    }
  }

  lemma {:induction false} ExecuteAllFrom(n: Node, ps: seq<Pending>, at: Place, ids: set<nat>)
    requires OnlyFrom(n, ids) && ServedFrom(ps, ids)
    ensures OnlyFrom(ExecuteAll(n, ps, at), ids)
    decreases |ps|
  {
    hide CommitStore;
    if ps != [] && !n.stopped {
      ExecuteAllFrom(Execute(n, ps[0], at), ps[1..], at, ids);
    }
  }

  lemma CommandFrom(n: Node, c: Cmd, at: Place, ids: set<nat>)
    requires OnlyFrom(n, ids) && c.id in ids
    ensures OnlyFrom(ApplyCommand(n, c, at), ids)
  {
    hide Process, ExecuteAll, RespondAll, ToProcess, LockAnswers, WaitFrom, Served;
    if c.body.Some? {
      var p := Pending(c.id, c.body.value, c.id in n.pendingResponses);
      var r := Process(n.table, p);
      if r.Some? {
        ProcessFrom(n.table, p, ids);
        AnswersFrom(r.value.events, ids);
        var n1 := n.(pendingResponses := n.pendingResponses - {c.id}, table := r.value.table);
        RespondAllFrom(n1, LockAnswers(r.value.events), ids);
        ExecuteAllFrom(RespondAll(n1, LockAnswers(r.value.events)), ToProcess(r.value.events), at, ids);
      }
    }
  }

  lemma {:induction false} CommandsFrom(n: Node, cs: seq<Cmd>, at: Place, ids: set<nat>)
    requires OnlyFrom(n, ids) && forall k :: 0 <= k < |cs| ==> cs[k].id in ids
    ensures OnlyFrom(ApplyCommands(n, cs, at), ids)
    decreases |cs|
  {
    hide ApplyCommand, OnlyFrom;
    if cs != [] && !n.stopped {
      CommandFrom(n, cs[0], at, ids);
      CommandsFrom(ApplyCommand(n, cs[0], at), cs[1..], at, ids);
    }
  }

  /** A command that has been answered at a position is in the log before it. */
  lemma AnsweredIsInLog(g: Group, q: nat, log: seq<Cmd>, p: nat, c: nat)
    requires HasAnswered(g, q, log, p, c)
    ensures exists k :: 0 <= k < p && log[k].id == c
  {
    hide ApplyCommands;
    var ids := set k | 0 <= k < p :: log[k].id;
    CommandsFrom(NewNode(g.start, g.groups, g.births[q]), log[..p], g.places[q], ids);
    var j :| 0 <= j < |NodeAt(g, q, log, p).results| && NodeAt(g, q, log, p).results[j].command == c;
  }
}
