/** Exactly which runs lose links. */
module LinkLoss {
  import opened Types
  import opened Metadata
  import opened Coordinator
  import opened Cluster
  import opened Invariant
  import opened LinkLedger
  import opened TransactionSteps
  import opened Safety

  // ------------------------------------------------------------------ the history

  lemma ProposeUnread(s: Sys, t: nat, r: Request, now: Timestamp, newLock: LockId, choice: Inode, x: set<Inode>)
    requires t in s.txns
    ensures var s' := ProposeStep(s.(spoiled := x), t, r, now, newLock, choice);
            s' == ProposeStep(s, t, r, now, newLock, choice).(spoiled := s'.spoiled)
  {
    hide Resume, Execute, CountersAfter, SpoiledAfter, ShowsHeldLock, Continue;
    ExecuteUnread(s, r, now, x);
    if r.Lock? {
      ContinueUnread(s.(locks := s.locks[r.inode := newLock]), x, t,
                     Resume(s.txns[t], choice, Ok(LockGranted(newLock))));
    } else if r.Unlock? {
      ContinueUnread(s.(locks := s.locks - {r.inode}), x, t, Resume(s.txns[t], choice, Ok(Empty)));
    } else {
      var step := Execute(s, r, now);
      var s1 := s.(meta := step.meta, next := CountersAfter(s, r, step.meta), spoiled := SpoiledAfter(s, t));
      ContinueUnread(s1, SpoiledAfter(s.(spoiled := x), t), t, Resume(s.txns[t], choice, step.outcome));
    }
  }

  lemma ContinueUnread(s: Sys, x: set<Inode>, t: nat, next: Next)
    ensures Continue(s.(spoiled := x), t, next) == Continue(s, t, next).(spoiled := x)
  {}

  lemma ExecuteUnread(s: Sys, r: Request, now: Timestamp, x: set<Inode>)
    ensures Execute(s.(spoiled := x), r, now) == Execute(s, r, now)
    ensures forall m :: CountersAfter(s.(spoiled := x), r, m) == CountersAfter(s, r, m)
  {
    hide CommitMeta;
  }

  /** No step looks at the history: it may as well not be there. */
  lemma HistoryUnread(s: Sys, l: Label, x: set<Inode>)
    ensures Enabled(s.(spoiled := x), l) <==> Enabled(s, l)
    ensures Enabled(s, l) ==>
              Apply(s.(spoiled := x), l) == Apply(s, l).(spoiled := Apply(s.(spoiled := x), l).spoiled)
  {
    hide ActionOf, Resume, CommitMeta, GetAttributes, LookupOutcome, MustWait, KernelValidated, IsStart, ProposeStep;
    if l.TxnStep? && l.t in s.txns {
      var a := ActionOf(s.txns[l.t], l.choice);
      if a.Propose? {
        ProposeUnread(s, l.t, a.request, l.now, l.newLock, l.choice, x);
      }
    }
  }

  /** A step spoils a file if and only if it takes two links of it. */
  lemma SpoiledByStep(s: Sys, l: Label)
    requires Enabled(s, l)
    ensures Apply(s, l).spoiled == s.spoiled + if BreaksLinks(s, l) then {s.txns[l.t].inode} else {}
  {
    if BreaksLinks(s, l) {
      hide Apply, Execute;
      BreakIs(s, l.t, l.now, l.newLock, l.choice);
    } else if l.TxnStep? && DropsFile(s, l.t) {
      hide Resume, DirectoryEntries, CommitOwner, CommitAttr, CommitXattr, CommitLink;
    } else {
      hide Resume, ActionOf, Execute, GetAttributes, LookupOutcome, ShowsHeldLock, MustWait, KernelValidated,
           CommitMeta;
    }
  }

  /** No step of the run takes two links of a file for one entry. */
  ghost predicate Careful(s: Sys, labels: seq<Label>)
    decreases |labels|
  {
    labels == [] || (!BreaksLinks(s, labels[0]) && Careful(Apply(s, labels[0]), labels[1..]))
  }

  /** Some step of the run takes two links of file f. */
  ghost predicate TakesTwo(s: Sys, labels: seq<Label>, f: Inode)
    decreases |labels|
  {
    labels != [] &&
      ((BreaksLinks(s, labels[0]) && s.txns[labels[0].t].inode == f) || TakesTwo(Apply(s, labels[0]), labels[1..], f))
  }

  /** The history holds exactly the files of which a step has taken two links. */
  lemma {:induction false} SpoiledIff(s: Sys, labels: seq<Label>, f: Inode)
    requires ValidRun(s, labels)
    ensures f in Run(s, labels).spoiled <==> f in s.spoiled || TakesTwo(s, labels, f)
    decreases |labels|
  {
    hide Enabled, Apply, BreaksLinks;
    if labels != [] {
      BreaksByDrop(s, labels[0]);
      SpoiledByStep(s, labels[0]);
      SpoiledIff(Apply(s, labels[0]), labels[1..], f);
    }
  }

  lemma BreaksByDrop(s: Sys, l: Label)
    ensures BreaksLinks(s, l) ==> l.TxnStep? && DropsFile(s, l.t)
  {}

  /** So a run is careful if and only if nothing is spoiled at its end. */
  lemma {:induction false} CarefulIff(s: Sys, labels: seq<Label>)
    requires ValidRun(s, labels) && s.spoiled == {}
    ensures Careful(s, labels) <==> Run(s, labels).spoiled == {}
    decreases |labels|
  {
    hide Enabled, Apply, BreaksLinks;
    if labels != [] {
      BreaksByDrop(s, labels[0]);
      SpoiledByStep(s, labels[0]);
      var s' := Apply(s, labels[0]);
      if BreaksLinks(s, labels[0]) {
        var f := s.txns[labels[0].t].inode;
        assert f in s'.spoiled;
        SpoiledIff(s', labels[1..], f);
      } else {
        CarefulIff(s', labels[1..]);
      }
    }
  }

  // ------------------------------------------------------------------ links are lost exactly then

  /** The invariant with nothing excepted, whatever the history. */
  ghost predicate Exact(s: Sys) { Inv(s.(spoiled := {})) }

  /** The file is deleted though something still refers to it, or its count is one short. */
  lemma FileLosesLink(s: Sys, t: nat, now: Timestamp, newLock: LockId, choice: Inode)
    requires Inv(s) && Enabled(s, TxnStep(t, now, newLock, choice)) && BreaksLinks(s, TxnStep(t, now, newLock, choice))
    requires s.txns[t].inode !in s.spoiled
    ensures var s' := Apply(s, TxnStep(t, now, newLock, choice)); var f := s.txns[t].inode;
            && s'.crash.None? && s'.txns == s.txns[t := Finished(Success)] && s'.meta.dir == s.meta.dir
            && f != ROOT_INODE
            && Refs(s'.meta.dir, s'.txns, f) == s.meta.attrs[f].hardlinks - 1 >= 1
            && (if s.meta.attrs[f].hardlinks == 2 then f !in s'.meta.attrs
                else f in s'.meta.attrs && s'.meta.attrs[f].hardlinks == s.meta.attrs[f].hardlinks - 2
                     && s'.meta.attrs[f].kind == s.meta.attrs[f].kind)
  {
    hide LocksOk, EntriesOk, FreshOk, SpoiledOk, EntriesTo, Pluses, Minuses, DirectoryEntries, Apply, Knows,
         CommitMeta;
    var f := s.txns[t].inode;
    BreakIs(s, t, now, newLock, choice);
    assert TxnOk(s.meta, s.txns[t], s.spoiled);
    assert CountOk(s.meta.attrs[f], Refs(s.meta.dir, s.txns, f));
    PlusesPut(s.txns, t, Finished(Success), f);
    MinusesPut(s.txns, t, Finished(Success), f);
  }

  lemma BreakIsInexact(s: Sys, l: Label)
    requires Inv(s) && s.spoiled == {} && Enabled(s, l) && BreaksLinks(s, l)
    ensures !Exact(Apply(s, l))
  {
    hide Enabled, Apply, BreaksLinks, FreshOk, LocksOk, SpoiledOk;
    BreaksByDrop(s, l);
    FileLosesLink(s, l.t, l.now, l.newLock, l.choice);
    var s', f := Apply(s, l), s.txns[l.t].inode;
    if Exact(s') {
      hide EntriesOk, TxnsOk, Refs;
      RefsToMissing(s'.meta, s'.txns, f);
    }
  }

  lemma RefsToMissing(m: Meta, txns: map<nat, Txn>, i: Inode)
    requires EntriesOk(m, {}) && TxnsOk(m, txns, {})
    ensures i !in m.attrs ==> Refs(m.dir, txns, i) == 0
  {
    if i !in m.attrs {
      NoRefsToMissing(m, txns, i, {});
    }
  }

  /** A step keeps the invariant with nothing excepted if and only if it does not take two links of a file. */
  lemma KeptIffNoLinkBroken(s: Sys, l: Label)
    requires Exact(s) && Enabled(s, l)
    ensures Exact(Apply(s, l)) <==> !BreaksLinks(s, l)
  {
    hide Inv, Enabled, Apply;
    var s0 := s.(spoiled := {});
    HistoryUnread(s, l, {});
    assert BreaksLinks(s0, l) <==> BreaksLinks(s, l);
    SpoiledByStep(s0, l);
    assert Apply(s0, l).(spoiled := {}) == Apply(s, l).(spoiled := {});
    if BreaksLinks(s0, l) {
      BreakIsInexact(s0, l);
    } else {
      StepKeepsInv(s0, l);
      assert Apply(s0, l).(spoiled := {}) == Apply(s0, l);
    }
  }

  ghost predicate ExactThroughout(s: Sys, labels: seq<Label>)
    decreases |labels|
  {
    Exact(s) && (labels != [] ==> ExactThroughout(Apply(s, labels[0]), labels[1..]))
  }

  /** The invariant holds, with nothing excepted, at every state of a run if and only if the run is careful. */
  lemma {:induction false} ExactIffCareful(s: Sys, labels: seq<Label>)
    requires Exact(s) && ValidRun(s, labels)
    ensures ExactThroughout(s, labels) <==> Careful(s, labels)
    decreases |labels|
  {
    hide Exact, Enabled, Apply, BreaksLinks;
    if labels != [] {
      KeptIffNoLinkBroken(s, labels[0]);
      if !BreaksLinks(s, labels[0]) {
        ExactIffCareful(Apply(s, labels[0]), labels[1..]);
      } else {
        assert !ExactThroughout(Apply(s, labels[0]), labels[1..]);
      }
    }
  }
}
