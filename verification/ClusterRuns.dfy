/** Building runs: what each kind of step does, and how runs compose. */
module ClusterRuns {
  import opened Types
  import opened Metadata
  import opened Coordinator
  import opened Cluster

  // ------------------------------------------------------------------ single steps

  /** A request other than Lock and Unlock. */
  lemma Executed(s: Sys, t: nat, now: Timestamp, newLock: LockId, choice: Inode, r: Request)
    requires s.crash.None? && t in s.txns && KernelValidated(s.meta, s.txns[t])
    requires ActionOf(s.txns[t], choice) == Propose(r)
    requires !r.Lock? && !r.Unlock? && !MustWait(s.locks, r) && ShowsHeldLock(s.locks, r)
    requires var o := Execute(s, r, now).outcome; !o.Panicked? && Resume(s.txns[t], choice, o).Go?
    ensures Enabled(s, TxnStep(t, now, newLock, choice))
    ensures var step := Execute(s, r, now);
            Apply(s, TxnStep(t, now, newLock, choice))
            == s.(meta := step.meta, next := CountersAfter(s, r, step.meta), spoiled := SpoiledAfter(s, t),
                  txns := s.txns[t := Resume(s.txns[t], choice, step.outcome).txn])
  {
    hide ActionOf, Resume, Execute, CountersAfter, MustWait, ShowsHeldLock, KernelValidated;
  }

  lemma LockedBy(s: Sys, t: nat, now: Timestamp, newLock: LockId, choice: Inode, i: Inode)
    requires s.crash.None? && t in s.txns && KernelValidated(s.meta, s.txns[t])
    requires ActionOf(s.txns[t], choice) == Propose(Lock(i))
    requires i !in s.locks && Resume(s.txns[t], choice, Ok(LockGranted(newLock))).Go?
    ensures Enabled(s, TxnStep(t, now, newLock, choice))
    ensures Apply(s, TxnStep(t, now, newLock, choice))
            == s.(locks := s.locks[i := newLock],
                  txns := s.txns[t := Resume(s.txns[t], choice, Ok(LockGranted(newLock))).txn])
  {
    hide ActionOf, Resume, Execute, KernelValidated;
  }

  lemma UnlockedBy(s: Sys, t: nat, now: Timestamp, newLock: LockId, choice: Inode, i: Inode, id: LockId)
    requires s.crash.None? && t in s.txns && KernelValidated(s.meta, s.txns[t])
    requires ActionOf(s.txns[t], choice) == Propose(Unlock(i, id))
    requires i in s.locks && s.locks[i] == id && Resume(s.txns[t], choice, Ok(Empty)).Go?
    ensures Enabled(s, TxnStep(t, now, newLock, choice))
    ensures Apply(s, TxnStep(t, now, newLock, choice))
            == s.(locks := s.locks - {i}, txns := s.txns[t := Resume(s.txns[t], choice, Ok(Empty)).txn])
  {
    hide ActionOf, Resume, Execute, KernelValidated;
  }

  lemma ReadBy(s: Sys, t: nat, now: Timestamp, newLock: LockId, choice: Inode, o: Outcome)
    requires s.crash.None? && t in s.txns && KernelValidated(s.meta, Now(s, t))
    requires match ActionOf(Now(s, t), choice)
             case ReadAttr(i) => o == GetAttributes(s.meta, i)
             case ReadEntry(p, n, c) => o == LookupOutcome(s.meta, p, n, c)
             case _ => false
    ensures Enabled(s, TxnStep(t, now, newLock, choice))
    ensures Apply(s, TxnStep(t, now, newLock, choice)) == Continue(s, t, Resume(Now(s, t), choice, o))
  {
    hide ActionOf, Resume, Execute, KernelValidated, GetAttributes, LookupOutcome;
  }

  // ------------------------------------------------------------------ runs

  /** When an rmdir starts, its name does not point at something else than a directory.  That much a
      kernel can have checked. */
  predicate FindsDirectory(s: Sys, l: Label) {
    l.TxnStep? && l.t in s.txns && s.txns[l.t].RmdirStart? ==>
      var k := (s.txns[l.t].parent, s.txns[l.t].name);
      k in s.meta.dir ==> s.meta.dir[k].kind == Directory
  }

  /** The run leads from s to s', and every rmdir in it starts on a directory. */
  ghost predicate Leads(s: Sys, labels: seq<Label>, s': Sys)
    decreases |labels|
  {
    if labels == [] then s' == s
    else Enabled(s, labels[0]) && FindsDirectory(s, labels[0]) && Leads(Apply(s, labels[0]), labels[1..], s')
  }

  lemma {:induction false} LeadsIsRun(s: Sys, labels: seq<Label>, s': Sys)
    requires Leads(s, labels, s')
    ensures ValidRun(s, labels) && Run(s, labels) == s'
    decreases |labels|
  {
    hide Enabled, Apply, FindsDirectory;
    if labels != [] {
      LeadsIsRun(Apply(s, labels[0]), labels[1..], s');
    }
  }

  lemma {:induction false} Compose(s: Sys, a: seq<Label>, s1: Sys, b: seq<Label>, s2: Sys)
    requires Leads(s, a, s1) && Leads(s1, b, s2)
    ensures Leads(s, a + b, s2)
    decreases |a|
  {
    hide Enabled, Apply, FindsDirectory;
    if a == [] {
      assert a + b == b;
    } else {
      Compose(Apply(s, a[0]), a[1..], s1, b, s2);
      assert (a + b)[1..] == a[1..] + b;
    }
  }

  lemma OneStep(s: Sys, l: Label)
    requires Enabled(s, l) && FindsDirectory(s, l)
    ensures Leads(s, [l], Apply(s, l))
  {
    hide Enabled, Apply, FindsDirectory;
    assert [l][1..] == [];
  }

  lemma {:induction false} Append(s: Sys, a: seq<Label>, b: seq<Label>)
    requires ValidRun(s, a) && ValidRun(Run(s, a), b)
    ensures ValidRun(s, a + b) && Run(s, a + b) == Run(Run(s, a), b)
    decreases |a|
  {
    hide Enabled, Apply;
    if a == [] {
      assert a + b == b;
    } else {
      Append(Apply(s, a[0]), a[1..], b);
      assert (a + b)[1..] == a[1..] + b;
    }
  }

  lemma FirstStep(s: Sys, l: Label, rest: seq<Label>)
    requires Enabled(s, l) && ValidRun(Apply(s, l), rest)
    ensures ValidRun(s, [l] + rest) && Run(s, [l] + rest) == Run(Apply(s, l), rest)
  {
    hide Enabled, Apply;
    assert ([l] + rest)[1..] == rest;
  }
}
