/** Reads see every write that was acknowledged before they began.

    The consensus log of a group is a growing sequence of decided slots, each a batch of commands.
    A replica works through the commands of a slot one by one, answering as it goes, and only then
    records the slot as applied; so a barrier is answered before its slot is recorded.  What it answers
    are the results that its state machine has by then. */
module Visibility {
  import opened Types
  import opened Replica
  import opened GroupRuns

  /** How many commands a replica has worked through, and how many whole slots it has recorded. */
  datatype Progress = Progress(processed: nat, applied: nat)

  /** A read in progress at a replica: what had been acknowledged when it began, its barrier, the
      slot that the others must have applied, and how far each replica was when it answered. */
  datatype Reading = Reading(
    reader: nat,
    barrier: nat,
    acknowledged: map<nat, nat>,
    required: int,                  // -1 until the barrier has been passed
    served: map<nat, nat>)

  /** A submitted command, and how many slots were decided by then. */
  datatype Submission = Submission(decided: nat, body: Option<Request>)

  datatype AnyState = State(
    log: seq<Cmd>,                  // all decided commands
    ends: seq<nat>,                 // ends[k]: how many commands the first k slots hold
    submitted: map<nat, Submission>,
    replicas: seq<Progress>,
    acknowledged: map<nat, nat>,    // how many commands had to be worked through for the answer
    readings: map<nat, Reading>)

  type State = s: AnyState | s.ends != [] witness AnyState.State([], [0], map[], [], map[], map[])

  datatype Step =
    | Submit(command: Cmd)
    | Decide(commands: seq<Cmd>)
    | Work(replica: nat, answers: set<nat>)
    | Record(replica: nat)
    | BeginRead(read: nat, replica: nat, barrier: nat)
    | PassBarrier(read: nat)
    | Serve(read: nat, replica: nat)

  function Decided(s: State): nat {
    |s.ends| - 1
  }

  /** What replica r has answered once it has worked through p commands. */
  ghost predicate AllAnswered(g: Group, r: nat, log: seq<Cmd>, p: nat, answers: set<nat>) {
    r < |g.places| && p <= |log| && forall c :: c in answers ==> HasAnswered(g, r, log, p, c)
  }

  ghost predicate Enabled(g: Group, s: State, step: Step) {
    match step
    // ids are unique
    case Submit(c) => c.id !in s.submitted
    // a slot holds commands that have been submitted
    case Decide(cs) => forall c :: c in cs ==> c.id in s.submitted && s.submitted[c.id].body == c.body
    // the replica applies the next command, and clients learn results that it then has
    case Work(r, answers) =>
      && r < |s.replicas| && s.replicas[r].applied < Decided(s)
      && s.replicas[r].processed < s.ends[s.replicas[r].applied + 1]
      && AllAnswered(g, r, s.log, s.replicas[r].processed + 1, answers)
    case Record(r) =>
      r < |s.replicas| && s.replicas[r].applied < Decided(s)
      && s.replicas[r].processed == s.ends[s.replicas[r].applied + 1]
    case BeginRead(id, r, b) => id !in s.readings && r < |s.replicas| && b !in s.submitted
    // the barrier is answered as soon as the reader's replica has worked through it
    case PassBarrier(id) =>
      && id in s.readings && s.readings[id].required < 0 && s.readings[id].reader < |s.replicas|
      && s.replicas[s.readings[id].reader].processed <= |s.log|
      && Cmd(s.readings[id].barrier, None) in s.log[..s.replicas[s.readings[id].reader].processed]
    // another replica answers once it has applied the required slot
    case Serve(id, r) =>
      && id in s.readings && s.readings[id].required >= 0 && r < |s.replicas|
      && (r == s.readings[id].reader || s.replicas[r].applied >= s.readings[id].required)
  }

  /** Commands answered now that had not been answered before. */
  ghost function Acknowledge(acks: map<nat, nat>, answers: set<nat>, position: nat): map<nat, nat> {
    map c | c in acks.Keys + answers :: if c in acks then acks[c] else position
  }

  /** The next state; a step that is not enabled is not taken. */
  ghost function Apply(g: Group, s: State, step: Step): State {
    if !Enabled(g, s, step) then s else
    match step
    case Submit(c) => s.(submitted := s.submitted[c.id := Submission(Decided(s), c.body)])
    case Decide(cs) => s.(log := s.log + cs, ends := s.ends + [|s.log + cs|])
    case Work(r, answers) =>
      var p := s.replicas[r];
      s.(replicas := s.replicas[r := p.(processed := p.processed + 1)],
         acknowledged := Acknowledge(s.acknowledged, answers, p.processed + 1))
    case Record(r) =>
      s.(replicas := s.replicas[r := s.replicas[r].(applied := s.replicas[r].applied + 1)])
    case BeginRead(id, r, b) =>
      s.(submitted := s.submitted[b := Submission(Decided(s), None)],
         readings := s.readings[id := Reading(r, b, s.acknowledged, -1, map[])])
    case PassBarrier(id) =>
      s.(readings := s.readings[id := s.readings[id].(required := s.replicas[s.readings[id].reader].applied)])
    case Serve(id, r) =>
      s.(readings := s.readings[id := s.readings[id].(served := s.readings[id].served[r := s.replicas[r].processed])])
  }

  // ------------------------------------------------------------------ the invariant

  ghost predicate SlotsOk(s: State) {
    && s.ends[|s.ends| - 1] == |s.log|
    && forall j, k :: 0 <= j <= k < |s.ends| ==> s.ends[j] <= s.ends[k]
  }

  /** A replica is within the slot after the last one it has recorded. */
  ghost predicate Within(s: State, p: Progress) {
    && p.applied <= Decided(s) && s.ends[p.applied] <= p.processed
    && p.processed <= if p.applied < Decided(s) then s.ends[p.applied + 1] else |s.log|
  }

  ghost predicate ReplicasOk(g: Group, s: State) {
    |s.replicas| == |g.places| && forall r :: 0 <= r < |s.replicas| ==> Within(s, s.replicas[r])
  }

  /** A command is in a slot decided after it was submitted. */
  ghost predicate LogOk(s: State) {
    forall k :: 0 <= k < |s.log| ==>
      var id := s.log[k].id;
      id in s.submitted && s.submitted[id].decided <= Decided(s) && s.ends[s.submitted[id].decided] <= k
  }

  ghost predicate SubmittedOk(s: State) {
    forall c :: c in s.submitted ==> s.submitted[c].decided <= Decided(s)
  }

  /** Command c has been answered by the time that p commands have been worked through: by every
      replica, since they agree. */
  ghost predicate AnsweredBy(g: Group, log: seq<Cmd>, p: nat, c: nat) {
    p <= |log| && forall r :: 0 <= r < |g.places| ==> HasAnswered(g, r, log, p, c)
  }

  ghost predicate AcksOk(g: Group, s: State) {
    forall c :: c in s.acknowledged ==> AnsweredBy(g, s.log, s.acknowledged[c], c)
  }

  /** Everything acknowledged before the read was answered within the slots decided before its barrier
      was submitted, and the required slot is at least that far. */
  ghost predicate ReadOk(g: Group, s: State, read: Reading) {
    && read.barrier in s.submitted && s.submitted[read.barrier].decided <= Decided(s) && read.reader < |s.replicas|
    && var start := s.submitted[read.barrier].decided;
    && (forall c :: c in read.acknowledged ==>
          read.acknowledged[c] <= s.ends[start] && AnsweredBy(g, s.log, read.acknowledged[c], c))
    && (read.required >= 0 ==> start <= read.required && s.ends[start] <= s.replicas[read.reader].processed)
    && (forall r :: r in read.served ==> r < |s.replicas| && s.ends[start] <= read.served[r] <= |s.log|)
  }

  ghost predicate ReadsOk(g: Group, s: State) {
    forall id :: id in s.readings ==> ReadOk(g, s, s.readings[id])
  }

  ghost predicate Inv(g: Group, s: State) {
    SlotsOk(s) && ReplicasOk(g, s) && LogOk(s) && SubmittedOk(s) && AcksOk(g, s) && ReadsOk(g, s)
  }

  lemma SubmitKeepsInv(g: Group, s: State, c: Cmd)
    requires Inv(g, s) && Enabled(g, s, Submit(c))
    ensures Inv(g, Apply(g, s, Submit(c)))
  {
    hide HasAnswered, ValidGroup;
    var s' := Apply(g, s, Submit(c));
    forall id | id in s'.readings
      ensures ReadOk(g, s', s'.readings[id])
    {
      assert ReadOk(g, s, s.readings[id]);
    }
  }

  /** Answers stand when the log grows. */
  lemma AnsweredStays(g: Group, log: seq<Cmd>, more: seq<Cmd>, p: nat, c: nat)
    requires AnsweredBy(g, log, p, c)
    ensures AnsweredBy(g, log + more, p, c)
  {
    hide HasAnswered;
    forall r | 0 <= r < |g.places|
      ensures HasAnswered(g, r, log + more, p, c)
    {
      AnswersKept(g, r, log, more, p, c);
    }
  }

  lemma DecideKeepsLog(g: Group, s: State, cs: seq<Cmd>)
    requires SlotsOk(s) && LogOk(s) && SubmittedOk(s) && Enabled(g, s, Decide(cs))
    ensures SlotsOk(Apply(g, s, Decide(cs))) && LogOk(Apply(g, s, Decide(cs)))
  {
    hide ValidGroup;
    var s' := Apply(g, s, Decide(cs));
    forall k | 0 <= k < |s'.log|
      ensures var id := s'.log[k].id;
              id in s'.submitted && s'.submitted[id].decided <= Decided(s') && s'.ends[s'.submitted[id].decided] <= k
    {
      if k >= |s.log| {
        assert s'.log[k] in cs;
        assert s.ends[s.submitted[s'.log[k].id].decided] <= s.ends[Decided(s)];
      }
    }
  }

  lemma DecideKeepsInv(g: Group, s: State, cs: seq<Cmd>)
    requires Inv(g, s) && Enabled(g, s, Decide(cs))
    ensures Inv(g, Apply(g, s, Decide(cs)))
  {
    hide ValidGroup, AnsweredBy, LogOk;
    var s' := Apply(g, s, Decide(cs));
    DecideKeepsLog(g, s, cs);
    forall c | c in s'.acknowledged
      ensures AnsweredBy(g, s'.log, s'.acknowledged[c], c)
    {
      AnsweredStays(g, s.log, cs, s.acknowledged[c], c);
    }
    forall id | id in s'.readings
      ensures ReadOk(g, s', s'.readings[id])
    {
      assert ReadOk(g, s, s.readings[id]);
      forall c | c in s.readings[id].acknowledged
        ensures AnsweredBy(g, s'.log, s.readings[id].acknowledged[c], c)
      {
        AnsweredStays(g, s.log, cs, s.readings[id].acknowledged[c], c);
      }
    }
    forall r | 0 <= r < |s'.replicas|
      ensures Within(s', s'.replicas[r])
    {
      assert Within(s, s.replicas[r]);
    }
  }

  /** What one replica has answered at a position, all have. */
  lemma AllAgree(g: Group, r: nat, log: seq<Cmd>, p: nat, answers: set<nat>, c: nat)
    requires AllAnswered(g, r, log, p, answers) && c in answers
    ensures AnsweredBy(g, log, p, c)
  {
    hide HasAnswered, ValidGroup;
    forall q | 0 <= q < |g.places|
      ensures HasAnswered(g, q, log, p, c)
    {
      AnswersAgree(g, r, q, log, p, c);
    }
  }

  lemma WorkKeepsInv(g: Group, s: State, r: nat, answers: set<nat>)
    requires Inv(g, s) && Enabled(g, s, Work(r, answers))
    ensures Inv(g, Apply(g, s, Work(r, answers)))
  {
    hide ValidGroup, AnsweredBy, AllAnswered;
    var s' := Apply(g, s, Work(r, answers));
    assert s.ends[s.replicas[r].applied + 1] <= |s.log|;
    forall c | c in s'.acknowledged
      ensures AnsweredBy(g, s'.log, s'.acknowledged[c], c)
    {
      if c !in s.acknowledged {
        AllAgree(g, r, s.log, s.replicas[r].processed + 1, answers, c);
      }
    }
    forall id | id in s'.readings
      ensures ReadOk(g, s', s'.readings[id])
    {
      assert ReadOk(g, s, s.readings[id]);
    }
  }

  lemma RecordKeepsInv(g: Group, s: State, r: nat)
    requires Inv(g, s) && Enabled(g, s, Record(r))
    ensures Inv(g, Apply(g, s, Record(r)))
  {
    hide ValidGroup, AnsweredBy;
    var s' := Apply(g, s, Record(r));
    forall id | id in s'.readings
      ensures ReadOk(g, s', s'.readings[id])
    {
      assert ReadOk(g, s, s.readings[id]);
    }
  }

  lemma BeginReadKeepsLog(g: Group, s: State, id: nat, r: nat, b: nat)
    requires SlotsOk(s) && LogOk(s) && SubmittedOk(s) && Enabled(g, s, BeginRead(id, r, b))
    ensures LogOk(Apply(g, s, BeginRead(id, r, b))) && SubmittedOk(Apply(g, s, BeginRead(id, r, b)))
  {
    hide ValidGroup;
  }

  lemma SameSlots(s: State, s': State)
    requires s'.log == s.log && s'.ends == s.ends
    ensures forall p :: Within(s', p) <==> Within(s, p)
  {}

  /** Whatever was acknowledged before a read begins was answered within the decided slots. */
  lemma NewReadOk(g: Group, s: State, id: nat, r: nat, b: nat)
    requires SlotsOk(s) && AcksOk(g, s) && Enabled(g, s, BeginRead(id, r, b))
    ensures var s' := Apply(g, s, BeginRead(id, r, b)); id in s'.readings && ReadOk(g, s', s'.readings[id])
  {
    hide ValidGroup, HasAnswered;
    assert forall c :: c in s.acknowledged ==> AnsweredBy(g, s.log, s.acknowledged[c], c);
  }

  lemma OtherReadOk(g: Group, s: State, id: nat, r: nat, b: nat, read: Reading)
    requires ReadOk(g, s, read) && Enabled(g, s, BeginRead(id, r, b))
    ensures ReadOk(g, Apply(g, s, BeginRead(id, r, b)), read)
  {
    hide ValidGroup, AnsweredBy;
  }

  lemma BeginReadKeepsInv(g: Group, s: State, id: nat, r: nat, b: nat)
    requires Inv(g, s) && Enabled(g, s, BeginRead(id, r, b))
    ensures Inv(g, Apply(g, s, BeginRead(id, r, b)))
  {
    hide ValidGroup, AnsweredBy, ReadOk, LogOk, Within;
    var s' := Apply(g, s, BeginRead(id, r, b));
    BeginReadKeepsLog(g, s, id, r, b);
    forall i | i in s'.readings
      ensures ReadOk(g, s', s'.readings[i])
    {
      if i == id {
        NewReadOk(g, s, id, r, b);
      } else {
        OtherReadOk(g, s, id, r, b, s.readings[i]);
      }
    }
    assert forall p :: Within(s', p) <==> Within(s, p) by { SameSlots(s, s'); }
  }

  /** The barrier lies beyond all slots decided before it was submitted.  A replica that has worked
      through it has recorded all those slots, even if not yet the barrier's own. */
  lemma BarrierIsBeyond(g: Group, s: State, id: nat)
    requires Inv(g, s) && Enabled(g, s, PassBarrier(id))
    ensures var read := s.readings[id];
            var start, p := s.submitted[read.barrier].decided, s.replicas[read.reader];
            start <= p.applied && s.ends[start] <= p.processed
  {
    hide ValidGroup, AnsweredBy;
    var read := s.readings[id];
    assert ReadOk(g, s, read);
    var start, p := s.submitted[read.barrier].decided, s.replicas[read.reader];
    assert Within(s, p);
    var k :| 0 <= k < p.processed && s.log[..p.processed][k] == Cmd(read.barrier, None);
    assert s.log[k].id == read.barrier && s.ends[start] <= k;
  }

  /** Steps that change readings only. */
  lemma OnlyReadings(g: Group, s: State, s': State)
    requires Inv(g, s) && s' == s.(readings := s'.readings) && ReadsOk(g, s')
    ensures Inv(g, s')
  {
    hide ValidGroup, ReadOk, AnsweredBy;
  }

  lemma PassBarrierKeepsInv(g: Group, s: State, id: nat)
    requires Inv(g, s) && Enabled(g, s, PassBarrier(id))
    ensures Inv(g, Apply(g, s, PassBarrier(id)))
  {
    hide ValidGroup, AnsweredBy, LogOk, SubmittedOk, AcksOk;
    var s' := Apply(g, s, PassBarrier(id));
    BarrierIsBeyond(g, s, id);
    forall i | i in s'.readings
      ensures ReadOk(g, s', s'.readings[i])
    {
      assert ReadOk(g, s, s.readings[i]);
    }
    OnlyReadings(g, s, s');
  }

  lemma ServeKeepsInv(g: Group, s: State, id: nat, r: nat)
    requires Inv(g, s) && Enabled(g, s, Serve(id, r))
    ensures Inv(g, Apply(g, s, Serve(id, r)))
  {
    hide ValidGroup, AnsweredBy, LogOk, SubmittedOk, AcksOk;
    var s' := Apply(g, s, Serve(id, r));
    forall i | i in s'.readings
      ensures ReadOk(g, s', s'.readings[i])
    {
      assert ReadOk(g, s, s.readings[i]);
      assert Within(s, s.replicas[r]);
    }
    OnlyReadings(g, s, s');
  }

  lemma StepKeepsInv(g: Group, s: State, step: Step)
    requires Inv(g, s) && Enabled(g, s, step)
    ensures Inv(g, Apply(g, s, step))
  {
    hide Inv, Enabled, Apply;
    match step
    case Submit(c) => SubmitKeepsInv(g, s, c);
    case Decide(cs) => DecideKeepsInv(g, s, cs);
    case Work(r, answers) => WorkKeepsInv(g, s, r, answers);
    case Record(r) => RecordKeepsInv(g, s, r);
    case BeginRead(id, r, b) => BeginReadKeepsInv(g, s, id, r, b);
    case PassBarrier(id) => PassBarrierKeepsInv(g, s, id);
    case Serve(id, r) => ServeKeepsInv(g, s, id, r);
  }

  // ------------------------------------------------------------------ all runs

  ghost predicate ValidRun(g: Group, s: State, steps: seq<Step>)
    decreases |steps|
  {
    steps == [] || (Enabled(g, s, steps[0]) && ValidRun(g, Apply(g, s, steps[0]), steps[1..]))
  }

  ghost function Run(g: Group, s: State, steps: seq<Step>): State
    decreases |steps|
  {
    if steps == [] then s else Run(g, Apply(g, s, steps[0]), steps[1..])
  }

  function Initial(n: nat): State {
    State([], [0], map[], seq(n, _ => Progress(0, 0)), map[], map[])
  }

  lemma {:induction false} RunKeepsInv(g: Group, s: State, steps: seq<Step>)
    requires Inv(g, s) && ValidRun(g, s, steps)
    ensures Inv(g, Run(g, s, steps))
    decreases |steps|
  {
    hide Inv, Enabled, Apply;
    if steps != [] {
      StepKeepsInv(g, s, steps[0]);
      RunKeepsInv(g, Apply(g, s, steps[0]), steps[1..]);
    }
  }

  lemma ReachableInv(g: Group, steps: seq<Step>)
    requires ValidRun(g, Initial(|g.places|), steps)
    ensures Inv(g, Run(g, Initial(|g.places|), steps))
  {
    RunKeepsInv(g, Initial(|g.places|), steps);
  }

  /** How much of the log had been decided when a read began. */
  function DecidedBefore(s: State, id: nat): nat {
    if id in s.readings && s.readings[id].barrier in s.submitted
       && s.submitted[s.readings[id].barrier].decided < |s.ends|
    then s.ends[s.submitted[s.readings[id].barrier].decided] else 0
  }

  lemma ServedBeyond(g: Group, s: State, id: nat)
    requires Inv(g, s) && id in s.readings
    ensures var read := s.readings[id];
            && DecidedBefore(s, id) <= |s.log|
            && (forall c :: c in read.acknowledged ==>
                  read.acknowledged[c] <= DecidedBefore(s, id) && AnsweredBy(g, s.log, read.acknowledged[c], c))
            && (forall r :: r in read.served ==> r < |g.places| && DecidedBefore(s, id) <= read.served[r] <= |s.log|)
  {
    hide ValidGroup, AnsweredBy;
    assert ReadOk(g, s, s.readings[id]);
  }

  /** In every run, every command that was acknowledged to a client, by any replica, before a read
      began is one of the commands decided by then; every replica that answers the read has its
      result by the time it answers, and each has it already at the position that the log had
      reached when the read began. */
  lemma AcknowledgedIsVisible(g: Group, steps: seq<Step>, id: nat, r: nat, c: nat)
    requires ValidRun(g, Initial(|g.places|), steps)
    requires id in Run(g, Initial(|g.places|), steps).readings
    requires var read := Run(g, Initial(|g.places|), steps).readings[id]; r in read.served && c in read.acknowledged
    ensures var s := Run(g, Initial(|g.places|), steps);
            var lo, at := DecidedBefore(s, id), s.readings[id].served[r];
            && r < |g.places| && lo <= at <= |s.log|
            && HasAnswered(g, r, s.log, lo, c) && HasAnswered(g, r, s.log, at, c)
            && exists k :: 0 <= k < lo && s.log[k].id == c
  {
    hide ValidRun, Run, Inv, HasAnswered, DecidedBefore;
    ReachableInv(g, steps);
    var s := Run(g, Initial(|g.places|), steps);
    ServedBeyond(g, s, id);
    var lo, at := DecidedBefore(s, id), s.readings[id].served[r];
    AnswersStay(g, r, s.log, s.readings[id].acknowledged[c], lo, c);
    AnswersStay(g, r, s.log, lo, at, c);
    AnsweredIsInLog(g, r, s.log, lo, c);
  }
}
