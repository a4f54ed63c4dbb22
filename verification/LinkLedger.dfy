/** Counting references: how one step moves them between entries and transactions. */
module LinkLedger {
  import opened Types
  import opened Metadata
  import opened Coordinator
  import opened Cluster
  import opened Invariant

  // ------------------------------------------------------------------ updates of the three counts

  function One(b: bool): int { if b then 1 else 0 }

  lemma EntriesToPut(dir: map<DirKey, Link>, k: DirKey, e: Link, i: Inode)
    ensures EntriesTo(dir[k := e], i)
         == EntriesTo(dir, i) - One(k in dir && dir[k].inode == i) + One(e.inode == i)
  {
    var before := EntrySet(dir, i);
    assert EntrySet(dir[k := e], i) == if e.inode == i then before + {k} else before - {k};
  }

  lemma EntriesToRemove(dir: map<DirKey, Link>, k: DirKey, i: Inode)
    requires k in dir
    ensures EntriesTo(dir - {k}, i) == EntriesTo(dir, i) - One(dir[k].inode == i)
  {
    assert EntrySet(dir - {k}, i) == EntrySet(dir, i) - {k};
  }

  lemma PlusesPut(txns: map<nat, Txn>, t: nat, txn: Txn, i: Inode)
    ensures Pluses(txns[t := txn], i)
         == Pluses(txns, i) - One(t in txns && Plus(txns[t]) == Some(i)) + One(Plus(txn) == Some(i))
  {
    hide Plus;
    var before := Owing(txns, i);
    assert Owing(txns[t := txn], i) == if Plus(txn) == Some(i) then before + {t} else before - {t};
  }

  lemma MinusesPut(txns: map<nat, Txn>, t: nat, txn: Txn, i: Inode)
    ensures Minuses(txns[t := txn], i)
         == Minuses(txns, i) - One(t in txns && Minus(txns[t]) == Some(i)) + One(Minus(txn) == Some(i))
  {
    hide Minus;
    var before := Doubling(txns, i);
    assert Doubling(txns[t := txn], i) == if Minus(txn) == Some(i) then before + {t} else before - {t};
  }

  /** What a transaction state adds to the references of inode i. */
  ghost function Balance(t: Txn, i: Inode): int {
    One(Plus(t) == Some(i)) - One(Minus(t) == Some(i))
  }

  // ------------------------------------------------------------------ one step's effect on the ledger

  /** The step moves a reference to i between the directory and the transaction, and changes the
      link count by exactly what is gained or lost on the way. */
  ghost predicate Balanced(m: Meta, m': Meta, txn: Txn, txn': Txn, i: Inode)
    requires i in m.attrs && i in m'.attrs
  {
    var gained := EntriesTo(m'.dir, i) - EntriesTo(m.dir, i) + Balance(txn', i) - Balance(txn, i);
    && m'.attrs[i].kind == m.attrs[i].kind
    && m'.attrs[i].hardlinks == m.attrs[i].hardlinks + gained
    && (m.attrs[i].kind == Directory ==> gained <= 0)
  }

  lemma BalancedKeepsCount(m: Meta, m': Meta, txns: map<nat, Txn>, t: nat, txn': Txn, i: Inode)
    requires t in txns && i in m.attrs && i in m'.attrs
    requires CountOk(m.attrs[i], Refs(m.dir, txns, i)) && Balanced(m, m', txns[t], txn', i)
    ensures CountOk(m'.attrs[i], Refs(m'.dir, txns[t := txn'], i))
  {
    hide EntriesTo, Pluses, Minuses, Plus, Minus;
    PlusesPut(txns, t, txn', i);
    MinusesPut(txns, t, txn', i);
  }

  /** If every surviving inode is balanced, and a new one starts with a right count, the ledger holds. */
  lemma LedgerSettles(m: Meta, m': Meta, txns: map<nat, Txn>, t: nat, txn': Txn, x: set<Inode>)
    requires t in txns && LedgerOk(m, txns, x)
    requires forall i :: i in m'.attrs && i != ROOT_INODE && i !in x ==>
               if i in m.attrs then Balanced(m, m', txns[t], txn', i)
               else CountOk(m'.attrs[i], Refs(m'.dir, txns[t := txn'], i))
    ensures LedgerOk(m', txns[t := txn'], x)
  {
    hide CountOk, Refs, Balanced;
    forall i | i in m'.attrs && i != ROOT_INODE && i !in x
      ensures CountOk(m'.attrs[i], Refs(m'.dir, txns[t := txn'], i))
    {
      if i in m.attrs {
        BalancedKeepsCount(m, m', txns, t, txn', i);
      }
    }
  }

  /** Same inodes, with the same kinds and link counts. */
  ghost predicate SameCounts(m: Meta, m': Meta) {
    && m'.attrs.Keys == m.attrs.Keys
    && forall i :: i in m.attrs ==> m'.attrs[i].kind == m.attrs[i].kind && m'.attrs[i].hardlinks == m.attrs[i].hardlinks
  }

  /** A step that leaves entries, counts and references in flight alone. */
  lemma QuietSettles(m: Meta, m': Meta, txns: map<nat, Txn>, t: nat, txn': Txn, x: set<Inode>)
    requires t in txns && LedgerOk(m, txns, x) && SameCounts(m, m') && m'.dir == m.dir
    requires Plus(txn') == Plus(txns[t]) && Minus(txn') == Minus(txns[t])
    ensures LedgerOk(m', txns[t := txn'], x)
  {
    hide EntriesTo, Plus, Minus, LedgerOk;
    forall i | i in m'.attrs && i != ROOT_INODE && i !in x
      ensures i in m.attrs && Balanced(m, m', txns[t], txn', i)
    {}
    LedgerSettles(m, m', txns, t, txn', x);
  }

  /** A new entry for inode j: paid by a link that was owed, or charged to a rename. */
  lemma LinkSettles(m: Meta, m': Meta, txns: map<nat, Txn>, t: nat, txn': Txn, k: DirKey, e: Link, x: set<Inode>)
    requires t in txns && LedgerOk(m, txns, x) && SameCounts(m, m')
    requires k !in m.dir && m'.dir == m.dir[k := e]
    requires forall i :: Balance(txn', i) == Balance(txns[t], i) - One(i == e.inode)
    ensures LedgerOk(m', txns[t := txn'], x)
  {
    hide EntriesTo, Balance, LedgerOk;
    forall i | i in m'.attrs && i != ROOT_INODE && i !in x
      ensures i in m.attrs && Balanced(m, m', txns[t], txn', i)
    {
      EntriesToPut(m.dir, k, e, i);
    }
    LedgerSettles(m, m', txns, t, txn', x);
  }

  /** An entry removed: its target is owed a decrement, or a rename is settled. */
  lemma UnlinkSettles(m: Meta, m': Meta, txns: map<nat, Txn>, t: nat, txn': Txn, k: DirKey, x: set<Inode>)
    requires t in txns && LedgerOk(m, txns, x) && SameCounts(m, m')
    requires k in m.dir && m'.dir == m.dir - {k}
    requires forall i :: Balance(txn', i) == Balance(txns[t], i) + One(i == m.dir[k].inode)
    ensures LedgerOk(m', txns[t := txn'], x)
  {
    hide EntriesTo, Balance, LedgerOk;
    forall i | i in m'.attrs && i != ROOT_INODE && i !in x
      ensures i in m.attrs && Balanced(m, m', txns[t], txn', i)
    {
      EntriesToRemove(m.dir, k, i);
    }
    LedgerSettles(m, m', txns, t, txn', x);
  }

  /** An entry redirected: the old target is owed a decrement, the new one is linked twice. */
  lemma ReplaceSettles(m: Meta, m': Meta, txns: map<nat, Txn>, t: nat, txn': Txn, k: DirKey, e: Link, x: set<Inode>)
    requires t in txns && LedgerOk(m, txns, x) && SameCounts(m, m')
    requires k in m.dir && m'.dir == m.dir[k := e]
    requires forall i :: Balance(txn', i) == Balance(txns[t], i) + One(i == m.dir[k].inode) - One(i == e.inode)
    ensures LedgerOk(m', txns[t := txn'], x)
  {
    hide EntriesTo, Balance, LedgerOk;
    forall i | i in m'.attrs && i != ROOT_INODE && i !in x
      ensures i in m.attrs && Balanced(m, m', txns[t], txn', i)
    {
      EntriesToPut(m.dir, k, e, i);
    }
    LedgerSettles(m, m', txns, t, txn', x);
  }

  /** The link count of one inode changes by what the transaction gives back or takes on. */
  lemma CountSettles(m: Meta, m': Meta, txns: map<nat, Txn>, t: nat, txn': Txn, j: Inode, d: int, x: set<Inode>)
    requires t in txns && LedgerOk(m, txns, x) && m'.dir == m.dir && j in m.attrs
    requires m'.attrs.Keys == m.attrs.Keys
    requires forall i :: i in m.attrs && i != j ==>
               m'.attrs[i].kind == m.attrs[i].kind && m'.attrs[i].hardlinks == m.attrs[i].hardlinks
    requires m'.attrs[j].kind == m.attrs[j].kind && m'.attrs[j].hardlinks == m.attrs[j].hardlinks + d
    requires m.attrs[j].kind == Directory ==> d <= 0
    requires forall i :: Balance(txn', i) == Balance(txns[t], i) + if i == j then d else 0
    ensures LedgerOk(m', txns[t := txn'], x)
  {
    hide EntriesTo, Balance, LedgerOk;
    forall i | i in m'.attrs && i != ROOT_INODE && i !in x
      ensures i in m.attrs && Balanced(m, m', txns[t], txn', i)
    {}
    LedgerSettles(m, m', txns, t, txn', x);
  }

  /** An inode is deleted by the transaction that held its last reference. */
  lemma DeleteSettles(m: Meta, m': Meta, txns: map<nat, Txn>, t: nat, txn': Txn, j: Inode, x: set<Inode>)
    requires t in txns && LedgerOk(m, txns, x) && m'.dir == m.dir && m'.attrs == m.attrs - {j}
    requires forall i :: i != j ==> Balance(txn', i) == Balance(txns[t], i)
    ensures LedgerOk(m', txns[t := txn'], x)
  {
    hide EntriesTo, Balance, LedgerOk;
    forall i | i in m'.attrs && i != ROOT_INODE && i !in x
      ensures i in m.attrs && Balanced(m, m', txns[t], txn', i)
    {}
    LedgerSettles(m, m', txns, t, txn', x);
  }

  /** Inode j is or becomes spoiled: its count and what is owed to it do not matter. */
  lemma SpoiledSettles(m: Meta, m': Meta, txns: map<nat, Txn>, t: nat, txn': Txn, j: Inode, x: set<Inode>)
    requires t in txns && LedgerOk(m, txns, x) && m'.dir == m.dir
    requires forall i :: i != j ==> (i in m.attrs <==> i in m'.attrs)
    requires forall i :: i != j && i in m.attrs ==>
               m'.attrs[i].kind == m.attrs[i].kind && m'.attrs[i].hardlinks == m.attrs[i].hardlinks
    requires forall i :: i != j ==> Balance(txn', i) == Balance(txns[t], i)
    ensures LedgerOk(m', txns[t := txn'], x + {j})
  {
    hide EntriesTo, Balance, LedgerOk;
    LedgerGrows(m, txns, x, x + {j});
    forall i | i in m'.attrs && i != ROOT_INODE && i !in x + {j}
      ensures i in m.attrs && Balanced(m, m', txns[t], txn', i)
    {}
    LedgerSettles(m, m', txns, t, txn', x + {j});
  }

  lemma LedgerGrows(m: Meta, txns: map<nat, Txn>, x: set<Inode>, x': set<Inode>)
    requires LedgerOk(m, txns, x) && x <= x'
    ensures LedgerOk(m, txns, x')
  {
    hide CountOk, Refs;
  }

  /** A new inode starts with one reference, owed by its creator. */
  lemma CreateSettles(m: Meta, m': Meta, txns: map<nat, Txn>, t: nat, txn': Txn, j: Inode, x: set<Inode>)
    requires t in txns && LedgerOk(m, txns, x) && m'.dir == m.dir && EntriesOk(m, x) && TxnsOk(m, txns, x)
    requires j !in m.attrs && j in m'.attrs && m'.attrs == m.attrs[j := m'.attrs[j]]
    requires m'.attrs[j].hardlinks == LinksAtBirth(m'.attrs[j].kind)
    requires Plus(txns[t]).None? && Minus(txns[t]).None? && Plus(txn') == Some(j) && Minus(txn').None?
    ensures LedgerOk(m', txns[t := txn'], x)
  {
    hide EntriesTo, Plus, Minus, LedgerOk, Pluses, Minuses, EntriesOk, TxnsOk;
    forall i | i in m'.attrs && i != ROOT_INODE && i !in x
      ensures if i in m.attrs then Balanced(m, m', txns[t], txn', i)
              else CountOk(m'.attrs[i], Refs(m'.dir, txns[t := txn'], i))
    {
      if i == j {
        NoRefsToMissing(m, txns, j, x);
        PlusesPut(txns, t, txn', j);
        MinusesPut(txns, t, txn', j);
      }
    }
    LedgerSettles(m, m', txns, t, txn', x);
  }

  // ------------------------------------------------------------------ references that are not there

  /** An inode that does not exist, and is not a spoiled one, has no references. */
  lemma NoRefsToMissing(m: Meta, txns: map<nat, Txn>, i: Inode, x: set<Inode>)
    requires EntriesOk(m, x) && TxnsOk(m, txns, x) && i !in m.attrs && i !in x
    ensures EntriesTo(m.dir, i) == 0 && Pluses(txns, i) == 0 && Minuses(txns, i) == 0
  {
    hide RenameKnows, OwedKindOk;
    assert EntrySet(m.dir, i) == {};
    forall t | t in txns
      ensures Plus(txns[t]) != Some(i) && Minus(txns[t]) != Some(i)
    {
      assert TxnOk(m, txns[t], x);
      if Minus(txns[t]).Some? {
        DoubleLinked(m, txns[t]);
        var e := m.dir[(txns[t].args.parent, txns[t].args.name)];
        assert e.inode in x || EntryOk(m, e);
      }
    }
    assert Owing(txns, i) == {} && Doubling(txns, i) == {};
  }

  /** A transaction with a double link is a rename that has both directories and the inode locked. */
  lemma DoubleLinked(m: Meta, t: Txn)
    requires Knows(m, t) && Minus(t).Some?
    ensures t.Renaming? && BothLinked(m, t.args, Minus(t).value) && Minus(t).value in Held(t)
  {}

  /** At most one rename links an inode twice, and then it has at least two entries. */
  lemma AtMostOneDoubleLink(s: Sys, i: Inode)
    requires LocksOk(s) && TxnsOk(s.meta, s.txns, s.spoiled)
    ensures Minuses(s.txns, i) <= 1
    ensures Minuses(s.txns, i) == 1 ==> EntriesTo(s.meta.dir, i) >= 2
  {
    hide Held, Plus, RenameKnows, OwedOk, Knows;
    var doubled := Doubling(s.txns, i);
    if doubled != {} {
      var t :| t in doubled;
      assert TxnOk(s.meta, s.txns[t], s.spoiled);
      DoubleLinked(s.meta, s.txns[t]);
      forall u | u in doubled
        ensures u == t
      {
        assert TxnOk(s.meta, s.txns[u], s.spoiled);
        DoubleLinked(s.meta, s.txns[u]);
      }
      assert doubled == {t};
      TwoEntries(s.meta.dir, (s.txns[t].args.parent, s.txns[t].args.name),
                 (s.txns[t].args.newParent, s.txns[t].args.newName), i);
    }
  }

  lemma TwoEntries(dir: map<DirKey, Link>, k: DirKey, k': DirKey, i: Inode)
    requires k in dir && k' in dir && k != k' && dir[k].inode == i && dir[k'].inode == i
    ensures EntriesTo(dir, i) >= 2
  {
    var entries := EntrySet(dir, i);
    assert |{k, k'}| == 2 && {k, k'} <= entries;
    SubsetSize({k, k'}, entries);
  }

  lemma {:induction false} SubsetSize<T>(a: set<T>, b: set<T>)
    requires a <= b
    ensures |a| <= |b|
  {
    if a != {} {
      var x :| x in a;
      SubsetSize(a - {x}, b - {x});
    }
  }

  /** References are never negative, and are none only if there is nothing at all. */
  lemma RefsNonNegative(s: Sys, i: Inode)
    requires LocksOk(s) && TxnsOk(s.meta, s.txns, s.spoiled)
    ensures Refs(s.meta.dir, s.txns, i) >= 0
    ensures Refs(s.meta.dir, s.txns, i) >= EntriesTo(s.meta.dir, i) + Pluses(s.txns, i) - 1
    ensures Refs(s.meta.dir, s.txns, i) <= 1 ==> Refs(s.meta.dir, s.txns, i) >= Pluses(s.txns, i)
    ensures Refs(s.meta.dir, s.txns, i) == Pluses(s.txns, i) ==> EntriesTo(s.meta.dir, i) == 0
  {
    hide EntriesTo, Pluses, Minuses, LocksOk, TxnsOk;
    AtMostOneDoubleLink(s, i);
  }

  /** Somebody owes inode i a reference. */
  lemma OwedIsCounted(txns: map<nat, Txn>, t: nat, i: Inode)
    requires t in txns && Plus(txns[t]) == Some(i)
    ensures Pluses(txns, i) >= 1
    ensures Pluses(txns, i) == 1 ==> forall u :: u in txns && u != t ==> Plus(txns[u]) != Some(i)
  {
    var owing := Owing(txns, i);
    assert t in owing;
    if |owing| == 1 {
      assert |owing - {t}| == 0;
      assert owing - {t} == {};
      forall u | u in txns && u != t
        ensures Plus(txns[u]) != Some(i)
      {
        assert u !in owing - {t};
      }
    }
  }

  /** Giving back an owed reference never underflows, and if it takes the last link away then
      nothing refers to the inode any more. */
  lemma LastReference(s: Sys, t: nat, j: Inode, count: nat)
    requires LocksOk(s) && TxnsOk(s.meta, s.txns, s.spoiled) && LedgerOk(s.meta, s.txns, s.spoiled)
    requires t in s.txns && Plus(s.txns[t]) == Some(j) && j in s.meta.attrs && j != ROOT_INODE && j !in s.spoiled
    requires count == 1 || (count == 2 && s.meta.attrs[j].kind == Directory)
    ensures count <= s.meta.attrs[j].hardlinks
    ensures count == 2 ==> s.meta.attrs[j].hardlinks == 2
    ensures s.meta.attrs[j].hardlinks == count ==> EntriesTo(s.meta.dir, j) == 0
    ensures s.meta.attrs[j].hardlinks == count ==> forall u :: u in s.txns && u != t ==> Plus(s.txns[u]) != Some(j)
    ensures s.meta.attrs[j].kind == Directory ==> s.meta.attrs[j].hardlinks == 2
  {
    hide LocksOk, TxnsOk, Plus, EntriesTo, Pluses, Minuses;
    RefsNonNegative(s, j);
    OwedIsCounted(s.txns, t, j);
    assert CountOk(s.meta.attrs[j], Refs(s.meta.dir, s.txns, j));
  }
}
