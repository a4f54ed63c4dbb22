/** When those who wait for a slot are woken. */
module SyncWaiters {
  import opened Types
  import opened Replica
  import opened ReplicaDeterminism
  import opened Sequences

  /** The largest index waited for at or ahead of position k. */
  function MaxAhead(queue: seq<Waiter>, k: nat): (m: nat)
    requires k < |queue|
    ensures queue[k].index <= m
    ensures forall j :: 0 <= j <= k ==> queue[j].index <= m
    ensures exists j :: 0 <= j <= k && queue[j].index == m
  {
    if k == 0 then queue[0].index
    else
      var m := MaxAhead(queue, k - 1);
      if m < queue[k].index then queue[k].index else m
  }

  /** A slot wakes exactly those who, and everybody ahead of whom, it satisfies. */
  lemma WokenBySlot(queue: seq<Waiter>, slot: nat, k: nat)
    requires k < |queue|
    ensures k < Ready(queue, slot) <==> MaxAhead(queue, k) <= slot
  {
    var r := Ready(queue, slot);
    if r <= k {
      assert queue[r].index > slot;
    } else {
      assert forall j :: 0 <= j <= k ==> queue[j].index <= slot;
    }
  }

  /** Waking at two slots is waking at the later one. */
  lemma {:induction false} ReadyAfter(queue: seq<Waiter>, a: nat, slot: nat)
    requires a <= |queue| && forall j :: 0 <= j < a ==> queue[j].index <= slot
    ensures Ready(queue, slot) == a + Ready(queue[a..], slot)
  {
    if a > 0 {
      assert queue[1..][a - 1..] == queue[a..];
      ReadyAfter(queue[1..], a - 1, slot);
    } else {
      assert queue[0..] == queue;
    }
  }

  lemma {:induction false} MaxAheadPrefix(queue: seq<Waiter>, extra: seq<Waiter>, k: nat)
    requires k < |queue|
    ensures MaxAhead(queue + extra, k) == MaxAhead(queue, k)
  {
    if k > 0 {
      MaxAheadPrefix(queue, extra, k - 1);
    }
  }

  /** Prompt wake-up, by the first slot that reaches one's own index, is not what the queue gives:
      an impatient client behind a patient one keeps waiting. */
  lemma NotAlwaysPrompt(a: nat, b: nat)
    ensures var queue := [Waiter(5, a), Waiter(2, b)]; queue[1].index <= 3 && Ready(queue, 3) == 0
  {}

  /** A waiter is woken promptly exactly if nobody ahead of it waits for a later slot. */
  lemma PromptIffNobodyAheadWaitsLonger(queue: seq<Waiter>, k: nat)
    requires k < |queue|
    ensures (forall slot :: queue[k].index <= slot ==> k < Ready(queue, slot))
       <==> (forall j :: 0 <= j < k ==> queue[j].index <= queue[k].index)
  {
    WokenBySlot(queue, queue[k].index, k);
    if forall j :: 0 <= j < k ==> queue[j].index <= queue[k].index {
      forall slot | queue[k].index <= slot
        ensures k < Ready(queue, slot)
      {
        WokenBySlot(queue, slot, k);
      }
    }
  }

  // ------------------------------------------------------------------ runs of a node

  ghost predicate Ascending(slots: seq<Slot>, from: nat) {
    slots != [] ==> from < slots[0].index && Ascending(slots[1..], slots[0].index)
  }

  /** The index of the last slot, if any. */
  function LastIndex(slots: seq<Slot>, from: nat): nat {
    if slots == [] then from else slots[|slots| - 1].index
  }

  /** Nobody is released before the awaited slot has been applied. */
  ghost predicate WokenRightly(n: Node) {
    forall k :: 0 <= k < |n.woken| ==> n.woken[k].index <= n.appliedIndex
  }

  /** Those waiting at first are still there, but for the first r; others may have come after them. */
  ghost predicate Remaining(queue: seq<Waiter>, extra: seq<Waiter>, r: nat, n: Node) {
    r <= |queue + extra| && n.syncRequests == (queue + extra)[r..]
  }

  lemma {:induction false} LocalsOnlyAppend(n: Node, ls: seq<Local>) returns (extra: seq<Waiter>)
    requires WokenRightly(n)
    ensures var n' := LocalSteps(n, ls);
            && n'.syncRequests == n.syncRequests + extra && n'.appliedIndex == n.appliedIndex && n'.stopped == n.stopped
            && WokenRightly(n')
    decreases |ls|
  {
    extra := [];
    if ls != [] {
      var n1 := LocalStep(n, ls[0]);
      var first := if ls[0].Ask? && n.appliedIndex < ls[0].w.index then [ls[0].w] else [];
      var rest := LocalsOnlyAppend(n1, ls[1..]);
      assert n1.syncRequests == n.syncRequests + first;
      assert (n.syncRequests + first) + rest == n.syncRequests + (first + rest);
      extra := first + rest;
    }
  }

  lemma {:induction false} CommandsKeepWaiters(n: Node, cs: seq<Cmd>, at: Place)
    ensures var n' := ApplyCommands(n, cs, at);
            n'.syncRequests == n.syncRequests && n'.woken == n.woken && n'.appliedIndex == n.appliedIndex
    decreases |cs|
  {
    hide ApplyCommand;
    if cs != [] && !n.stopped {
      CommandKeepsWaiters(n, cs[0], at);
      CommandsKeepWaiters(ApplyCommand(n, cs[0], at), cs[1..], at);
    }
  }

  lemma CommandKeepsWaiters(n: Node, c: Cmd, at: Place)
    ensures var n' := ApplyCommand(n, c, at);
            n'.syncRequests == n.syncRequests && n'.woken == n.woken && n'.appliedIndex == n.appliedIndex
  {
    hide LockRuns.Process, ExecuteAll, RespondAll;
    if c.body.Some? && Admitted(n, c, c.body.value).Some? {
      var pr := LockRuns.Process(n.table, LockTable.Pending(c.id, c.body.value, c.id in n.pendingResponses)).value;
      var n1 := n.(pendingResponses := n.pendingResponses - {c.id}, table := pr.table);
      RespondAllKeepsWaiters(n1, LockAnswers(pr.events));
      ExecuteAllKeepsWaiters(RespondAll(n1, LockAnswers(pr.events)), ToProcess(pr.events), at);
    }
  }

  lemma {:induction false} RespondAllKeepsWaiters(n: Node, answers: seq<(Answer, bool)>)
    ensures var n' := RespondAll(n, answers);
            n'.syncRequests == n.syncRequests && n'.woken == n.woken && n'.appliedIndex == n.appliedIndex
    decreases |answers|
  {
    if answers != [] {
      RespondAllKeepsWaiters(Respond(n, answers[0].0, answers[0].1), answers[1..]);
    }
  }

  lemma {:induction false} ExecuteAllKeepsWaiters(n: Node, ps: seq<LockTable.Pending>, at: Place)
    ensures var n' := ExecuteAll(n, ps, at);
            n'.syncRequests == n.syncRequests && n'.woken == n.woken && n'.appliedIndex == n.appliedIndex
    decreases |ps|
  {
    hide FileStore.CommitStore;
    if ps != [] && !n.stopped {
      ExecuteAllKeepsWaiters(Execute(n, ps[0], at), ps[1..], at);
    }
  }

  /** One slot, with some local requests before it. */
  lemma SlotWakes(n: Node, ls: seq<Local>, slot: Slot, at: Place) returns (extra: seq<Waiter>)
    requires !n.stopped && WokenRightly(n) && n.appliedIndex < slot.index
    ensures var n' := Deliver(LocalSteps(n, ls), slot.index, slot.commands, at);
            !n'.stopped ==>
              && n'.appliedIndex == slot.index && WokenRightly(n')
              && Remaining(n.syncRequests, extra, Ready(n.syncRequests + extra, slot.index), n')
  {
    hide ApplyCommands, LocalSteps;
    extra := LocalsOnlyAppend(n, ls);
    CommandsKeepWaiters(LocalSteps(n, ls), slot.commands, at);
  }

  lemma {:induction false} QueueAfterRun(n: Node, slots: seq<Slot>, locals: seq<seq<Local>>, at: Place)
    returns (extra: seq<Waiter>)
    requires |locals| == |slots| && !n.stopped && WokenRightly(n) && Ascending(slots, n.appliedIndex)
    ensures slots == [] ==> extra == []
    ensures var n' := RunNode(n, slots, locals, at);
            !n'.stopped ==>
              && WokenRightly(n') && n'.appliedIndex == LastIndex(slots, n.appliedIndex)
              && Remaining(n.syncRequests, extra,
                           if slots == [] then 0 else Ready(n.syncRequests + extra, n'.appliedIndex), n')
    decreases |slots|
  {
    hide Deliver, LocalSteps, WokenRightly;
    extra := [];
    if slots == [] {
      assert n.syncRequests + extra == n.syncRequests;
    } else {
      var slot := slots[0].index;
      var n1 := Deliver(LocalSteps(n, locals[0]), slot, slots[0].commands, at);
      extra := SlotWakes(n, locals[0], slots[0], at);
      if !n1.stopped {
        var more := QueueAfterRun(n1, slots[1..], locals[1..], at);
        var n' := RunNode(n1, slots[1..], locals[1..], at);
        if !n'.stopped {
          LastIsLater(slots, n.appliedIndex);
          ComposeWakes(n.syncRequests, extra, more, n1, n', slot, slots[1..] == []);
        }
        extra := extra + more;
      }
    }
  }

  lemma {:induction false} LastIsLater(slots: seq<Slot>, from: nat)
    requires slots != [] && Ascending(slots, from)
    ensures slots[0].index <= LastIndex(slots, from) == LastIndex(slots[1..], slots[0].index)
    decreases |slots|
  {
    if slots[1..] != [] {
      LastIsLater(slots[1..], slots[0].index);
    }
  }

  lemma ComposeWakes(queue: seq<Waiter>, first: seq<Waiter>, more: seq<Waiter>, n1: Node, n': Node, slot: nat,
                     last: bool)
    requires Remaining(queue, first, Ready(queue + first, slot), n1) && slot <= n'.appliedIndex
    requires last ==> more == [] && n'.appliedIndex == slot
    requires Remaining(n1.syncRequests, more, if last then 0 else Ready(n1.syncRequests + more, n'.appliedIndex), n')
    ensures Remaining(queue, first + more, Ready(queue + (first + more), n'.appliedIndex), n')
  {
    hide Ready;
    if last {
      NothingMore(queue, first, n1.syncRequests);
    } else {
      LaterWakes(queue, first, more, Ready(queue + first, slot), n'.appliedIndex);
    }
  }

  lemma NothingMore(queue: seq<Waiter>, first: seq<Waiter>, rest: seq<Waiter>)
    ensures queue + (first + []) == queue + first && (rest + [])[0..] == rest
  {}

  lemma LaterWakes(queue: seq<Waiter>, first: seq<Waiter>, more: seq<Waiter>, a: nat, slot: nat)
    requires a <= |queue + first| && forall j :: 0 <= j < a ==> (queue + first)[j].index <= slot
    ensures var r := Ready((queue + first)[a..] + more, slot);
            && Ready(queue + (first + more), slot) == a + r
            && ((queue + first)[a..] + more)[r..] == (queue + (first + more))[a + r..]
  {
    hide Ready;
    var x := queue + first;
    Associate(queue, first, more);
    DropTwice(x, more, a, Ready(x[a..] + more, slot));
    assert forall j :: 0 <= j < a ==> (x + more)[j] == x[j];
    ReadyAfter(x + more, a, slot);
  }

  lemma DropTwice<T>(x: seq<T>, more: seq<T>, a: nat, r: nat)
    requires a <= |x| && r <= |x[a..] + more|
    ensures x[a..] + more == (x + more)[a..] && (x[a..] + more)[r..] == (x + more)[a + r..]
  {}

  /** Of those waiting now, the one at position k is woken by the first slot that reaches the largest
      index waited for at or ahead of it: it has left the queue if and only if the last slot applied
      has reached that index.  Nobody is ever woken before its own slot is applied. */
  lemma WaitersAreWoken(n: Node, slots: seq<Slot>, locals: seq<seq<Local>>, at: Place)
    returns (extra: seq<Waiter>, left: nat)
    requires |locals| == |slots| > 0 && !n.stopped && WokenRightly(n)
    requires Ascending(slots, n.appliedIndex)
    ensures var n' := RunNode(n, slots, locals, at);
            !n'.stopped ==>
              && WokenRightly(n') && n'.appliedIndex == LastIndex(slots, n.appliedIndex)
              && Remaining(n.syncRequests, extra, left, n')
              && forall k :: 0 <= k < |n.syncRequests| ==>
                   (k < left <==> MaxAhead(n.syncRequests, k) <= LastIndex(slots, n.appliedIndex))
  {
    hide RunNode, WokenRightly;
    extra := QueueAfterRun(n, slots, locals, at);
    var q, s := n.syncRequests, LastIndex(slots, n.appliedIndex);
    left := Ready(q + extra, s);
    forall k | 0 <= k < |q|
      ensures k < left <==> MaxAhead(q, k) <= s
    {
      WokenBySlot(q + extra, s, k);
      MaxAheadPrefix(q, extra, k);
    }
  }
}
