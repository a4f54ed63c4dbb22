/** Which node holds which group, as every node works it out by itself, and where requests go. */
module Placement {
  import opened Striping
  import opened Types
  import opened Sorting

  // ------------------------------------------------------------------ node ids

  newtype Octet = x: int | 0 <= x < 0x100
  newtype Port = x: int | 0 <= x < 0x1_0000

  datatype Address = Address(a: Octet, b: Octet, c: Octet, d: Octet, port: Port)

  /** The id of a node with an IPv4 address: its octets and port side by side. */
  function NodeId(at: Address): nat {
    (((at.a as nat * 0x100 + at.b as nat) * 0x100 + at.c as nat) * 0x100 + at.d as nat) * 0x1_0000 + at.port as nat
  }

  /** Different addresses have different ids. */
  lemma NodeIdInjective(x: Address, y: Address)
    ensures NodeId(x) == NodeId(y) <==> x == y
  {
    if NodeId(x) == NodeId(y) {
      var c, c' := x.a as nat * 0x100 + x.b as nat, y.a as nat * 0x100 + y.b as nat;
      var d, d' := c * 0x100 + x.c as nat, c' * 0x100 + y.c as nat;
      var e, e' := d * 0x100 + x.d as nat, d' * 0x100 + y.d as nat;
      SameDigits(e, x.port as nat, e', y.port as nat, 0x1_0000);
      SameDigits(d, x.d as nat, d', y.d as nat, 0x100);
      SameDigits(c, x.c as nat, c', y.c as nat, 0x100);
      SameDigits(x.a as nat, x.b as nat, y.a as nat, y.b as nat, 0x100);
    }
  }

  lemma SameDigits(hi: nat, lo: nat, hi': nat, lo': nat, base: nat)
    requires lo < base && lo' < base && hi * base + lo == hi' * base + lo'
    ensures hi == hi' && lo == lo'
  {
    DivModUnique(hi * base + lo, base, hi, lo);
    DivModUnique(hi' * base + lo', base, hi', lo');
  }

  /** What a node is told: its own address, the others', and how many replicas a group has. */
  datatype Context = Context(address: Address, peers: seq<Address>, replicas: nat)

  function TotalNodes(c: Context): nat { |c.peers| + 1 }

  function AllIds(c: Context): (ids: seq<nat>)
    ensures |ids| == TotalNodes(c)
    ensures forall k :: 0 <= k < |ids| ==> ids[k] == if k == 0 then NodeId(c.address) else NodeId(c.peers[k - 1])
  {
    seq(|c.peers| + 1, k requires 0 <= k <= |c.peers| => if k == 0 then NodeId(c.address) else NodeId(c.peers[k - 1]))
  }

  /** No address is given twice. */
  ghost predicate Distinct(c: Context) {
    && (forall k :: 0 <= k < |c.peers| ==> c.peers[k] != c.address)
    && (forall j, k :: 0 <= j < k < |c.peers| ==> c.peers[j] != c.peers[k])
  }

  predicate Knows(c: Context, at: Address) { at == c.address || at in c.peers }

  /** Two nodes that have been told about the same cluster. */
  ghost predicate SameCluster(c: Context, c': Context) {
    && Distinct(c) && Distinct(c') && c.replicas == c'.replicas
    && forall at :: Knows(c, at) <==> Knows(c', at)
  }

  // ------------------------------------------------------------------ indices

  lemma IdsOf(c: Context)
    ensures forall at :: Knows(c, at) ==> NodeId(at) in AllIds(c)
    ensures forall id :: id in AllIds(c) ==> exists at :: Knows(c, at) && NodeId(at) == id
  {
    forall at | Knows(c, at)
      ensures NodeId(at) in AllIds(c)
    {
      if at == c.address {
        assert AllIds(c)[0] == NodeId(at);
      } else {
        var k :| 0 <= k < |c.peers| && c.peers[k] == at;
        assert AllIds(c)[k + 1] == NodeId(at);
      }
    }
    forall id | id in AllIds(c)
      ensures exists at :: Knows(c, at) && NodeId(at) == id
    {
      var k :| 0 <= k < |AllIds(c)| && AllIds(c)[k] == id;
      var at := if k == 0 then c.address else c.peers[k - 1];
      assert Knows(c, at) && NodeId(at) == id;
    }
  }

  /** The index of a node: the position of its id among all ids. */
  function IndexOf(c: Context, at: Address): (i: nat)
    requires Knows(c, at)
    ensures i < TotalNodes(c) && i < |Sort(AllIds(c))| && Sort(AllIds(c))[i] == NodeId(at)
  {
    IdsOf(c);
    SameElements(AllIds(c), Sort(AllIds(c)));
    Position(Sort(AllIds(c)), NodeId(at))
  }

  /** Collects the ids, sorts them and looks for its own. */
  method NodeIndex(c: Context) returns (index: nat)
    ensures index == IndexOf(c, c.address)
  {
    var ids := [NodeId(c.address)];
    for k := 0 to |c.peers|
      invariant ids == AllIds(c)[..k + 1]
    {
      ids := ids + [NodeId(c.peers[k])];
    }
    assert ids == AllIds(c);
    IdsOf(c);
    SameElements(AllIds(c), Sort(AllIds(c)));
    index := Position(Sort(ids), NodeId(c.address));
  }

  method PeersWithNodeIndices(c: Context) returns (indexed: seq<(Address, nat)>)
    ensures |indexed| == |c.peers|
    ensures forall k :: 0 <= k < |c.peers| ==> indexed[k] == (c.peers[k], IndexOf(c, c.peers[k]))
  {
    indexed := [];
    for k := 0 to |c.peers|
      invariant |indexed| == k
      invariant forall j :: 0 <= j < k ==> indexed[j] == (c.peers[j], IndexOf(c, c.peers[j]))
    {
      indexed := indexed + [(c.peers[k], IndexOf(c, c.peers[k]))];
    }
  }

  lemma DistinctIds(c: Context)
    requires Distinct(c)
    ensures forall j, k :: 0 <= j < k < TotalNodes(c) ==> AllIds(c)[j] != AllIds(c)[k]
  {
    forall j, k | 0 <= j < k < TotalNodes(c)
      ensures AllIds(c)[j] != AllIds(c)[k]
    {
      NodeIdInjective(if j == 0 then c.address else c.peers[j - 1], c.peers[k - 1]);
    }
  }

  lemma SameIds(c: Context, c': Context)
    requires SameCluster(c, c')
    ensures Sort(AllIds(c)) == Sort(AllIds(c')) && StrictlySorted(Sort(AllIds(c))) && TotalNodes(c) == TotalNodes(c')
  {
    DistinctIds(c);
    DistinctIds(c');
    SortDistinct(AllIds(c));
    SortDistinct(AllIds(c'));
    IdsOf(c);
    IdsOf(c');
    StrictlySortedUnique(Sort(AllIds(c)), Sort(AllIds(c')));
  }

  /** All nodes give every node the same index, and different nodes different ones. */
  lemma IndicesAgree(c: Context, c': Context, at: Address, at': Address)
    requires SameCluster(c, c') && Knows(c, at) && Knows(c, at')
    ensures IndexOf(c, at) == IndexOf(c', at)
    ensures IndexOf(c, at) == IndexOf(c, at') <==> at == at'
  {
    hide NodeId, Sort;
    SameIds(c, c');
    NodeIdInjective(at, at');
  }

  /** And every index below the number of nodes is some node's. */
  lemma IndexIsTaken(c: Context, i: nat) returns (at: Address)
    requires Distinct(c) && i < TotalNodes(c)
    ensures Knows(c, at) && IndexOf(c, at) == i
  {
    hide NodeId, Sort;
    SameIds(c, c);
    SameElements(AllIds(c), Sort(AllIds(c)));
    IdsOf(c);
    var id := Sort(AllIds(c))[i];
    assert id in Sort(AllIds(c)) && id in AllIds(c);
    at :| Knows(c, at) && NodeId(at) == id;
  }

  // ------------------------------------------------------------------ groups on nodes

  /** The nodes are cut up into sets that can each support a group; groups go round these sets. */
  predicate NodeContainsRaftGroup(index: nat, total: nat, group: nat, replicas: nat)
    requires 0 < replicas <= total && total % replicas == 0
  {
    NodeSets(total, replicas);
    index / replicas == group % (total / replicas)
  }

  /** There is at least one set of nodes, and together they are all nodes. */
  lemma NodeSets(total: nat, replicas: nat)
    requires 0 < replicas <= total && total % replicas == 0
    ensures total / replicas > 0 && total == (total / replicas) * replicas
  {}

  ghost function Interval(a: nat, b: nat): (s: set<nat>)
    requires a <= b
    ensures |s| == b - a && forall i :: i in s <==> a <= i < b
    decreases b - a
  {
    if a == b then {} else Interval(a, b - 1) + {b - 1}
  }

  ghost function NodesOf(total: nat, group: nat, replicas: nat): set<nat>
    requires 0 < replicas <= total && total % replicas == 0
  {
    set i | 0 <= i < total && NodeContainsRaftGroup(i, total, group, replicas)
  }

  ghost function GroupsOf(index: nat, total: nat, groups: nat, replicas: nat): set<nat>
    requires 0 < replicas <= total && total % replicas == 0
  {
    set g | 0 <= g < groups && NodeContainsRaftGroup(index, total, g, replicas)
  }

  lemma QuotientRange(i: nat, k: nat, n: nat)
    requires n > 0
    ensures i / n == k <==> k * n <= i < k * n + n
  {
    if k * n <= i < k * n + n {
      DivModUnique(i, n, k, i - k * n);
    }
  }

  /** Each group lives on exactly as many nodes as it has replicas. */
  lemma GroupHasReplicas(total: nat, group: nat, replicas: nat)
    requires 0 < replicas <= total && total % replicas == 0
    ensures |NodesOf(total, group, replicas)| == replicas
  {
    NodeSets(total, replicas);
    var sets := total / replicas;
    var k := group % sets;
    assert (k + 1) * replicas <= sets * replicas by { AtLeastFactorBy(k + 1, sets, replicas); }
    assert (k + 1) * replicas == k * replicas + replicas;
    forall i: nat
      ensures i in NodesOf(total, group, replicas) <==> k * replicas <= i < k * replicas + replicas
    {
      QuotientRange(i, k, replicas);
    }
    assert NodesOf(total, group, replicas) == Interval(k * replicas, k * replicas + replicas);
  }

  lemma AtLeastFactorBy(a: nat, b: nat, n: nat)
    requires a <= b
    ensures a * n <= b * n
  {
    assert b * n == a * n + (b - a) * n;
  }

  ghost function Residues(n: nat, k: nat, m: nat): set<nat>
    requires m > 0
  {
    set g | 0 <= g < n && g % m == k
  }

  lemma {:induction false} ResidueCount(r: nat, m: nat, k: nat)
    requires k < m
    ensures |Residues(r * m, k, m)| == r
  {
    if r == 0 {
      assert Residues(0, k, m) == {};
    } else {
      ResidueCount(r - 1, m, k);
      var lo, g := (r - 1) * m, (r - 1) * m + k;
      assert r * m == lo + m;
      DivModUnique(g, m, r - 1, k);
      forall x: nat | lo <= x < lo + m && x % m == k
        ensures x == g
      {
        DivModUnique(x, m, r - 1, x - lo);
      }
      assert Residues(r * m, k, m) == Residues(lo, k, m) + {g};
    }
  }

  /** With as many groups as nodes, each node holds exactly as many groups as a group has replicas. */
  lemma NodeHoldsGroups(index: nat, total: nat, replicas: nat)
    requires 0 < replicas <= total && total % replicas == 0 && index < total
    ensures |GroupsOf(index, total, total, replicas)| == replicas
  {
    NodeSets(total, replicas);
    var sets, k := total / replicas, index / replicas;
    assert k < sets by { QuotientBelow(index, sets, replicas); }
    assert replicas * sets == total;
    ResidueCount(replicas, sets, k);
    assert GroupsOf(index, total, total, replicas) == Residues(total, k, sets);
  }

  lemma QuotientBelow(i: nat, k: nat, n: nat)
    requires n > 0 && i < k * n
    ensures i / n < k
  {
    if i / n >= k {
      AtLeastFactorBy(k, i / n, n);
    }
  }

  // ------------------------------------------------------------------ messages

  /** What a node may get: requests to be proposed, and those that are answered without that. */
  datatype Message =
    | Proposed(request: Request)
    | FilesystemReady
    | FilesystemInformation
    | FilesystemChecksum
    | FilesystemCheck
    | GetAttr(inode: Inode)
    | ListDir(inode: Inode)
    | Create(parent: Inode, name: Name, uid: nat, gid: nat, mode: bv16, kind: FileKind)
    | Mkdir(parent: Inode, name: Name, uid: nat, gid: nat, mode: bv16)
    | Unlink(parent: Inode, name: Name, context: UserContext)
    | Rmdir(parent: Inode, name: Name, context: UserContext)
    | Rename(parent: Inode, name: Name, newParent: Inode, newName: Name, context: UserContext)
    | Lookup(parent: Inode, name: Name, context: UserContext)
    | Hardlink(inode: Inode, newParent: Inode, newName: Name, context: UserContext)
    | ListXattrs(inode: Inode)
    | GetXattr(inode: Inode, key: string, context: UserContext)
    | ReadRaw(requiredCommit: nat, inode: Inode, offset: nat, readSize: nat)
    | Read(inode: Inode, offset: nat, readSize: nat)
    | LatestCommit(raftGroup: nat)
    | RaftGroupLeader(raftGroup: nat)
    | ConsensusMessage(raftGroup: nat, data: seq<Byte>)

  function InfoOf(r: Message): MetaInfo {
    match r
    case Proposed(q) => MetaOf(q)
    case FilesystemReady | FilesystemInformation | FilesystemChecksum | FilesystemCheck =>
      MetaInfo(None, None, None, NoAccess, AnyNode)
    case ReadRaw(_, i, _, _) => MetaInfo(None, Some(i), None, ReadData, RaftGroup)
    case Read(i, _, _) => MetaInfo(None, Some(i), None, ReadData, RaftGroup)
    case Unlink(p, _, _) => MetaInfo(None, Some(p), None, WriteMetadata, RaftGroup)
    case Rmdir(p, _, _) => MetaInfo(None, Some(p), None, WriteMetadata, RaftGroup)
    case Hardlink(_, _, _, _) => MetaInfo(None, None, None, WriteMetadata, TransactionCoordinator)
    case Rename(_, _, _, _, _) => MetaInfo(None, None, None, WriteMetadata, TransactionCoordinator)
    case ListXattrs(i) => MetaInfo(None, Some(i), None, ReadMetadata, RaftGroup)
    case GetXattr(i, _, _) => MetaInfo(None, Some(i), None, ReadMetadata, RaftGroup)
    case Lookup(p, _, _) => MetaInfo(None, Some(p), None, ReadMetadata, RaftGroup)
    case ListDir(i) => MetaInfo(None, Some(i), None, ReadMetadata, RaftGroup)
    case GetAttr(i) => MetaInfo(None, Some(i), None, ReadMetadata, RaftGroup)
    case LatestCommit(g) => MetaInfo(Some(g), None, None, NoAccess, RaftGroup)
    case RaftGroupLeader(g) => MetaInfo(Some(g), None, None, NoAccess, RaftGroup)
    case ConsensusMessage(g, _) => MetaInfo(Some(g), None, None, NoAccess, RaftGroup)
    case Mkdir(p, _, _, _, _) => MetaInfo(None, Some(p), None, WriteMetadata, TransactionCoordinator)
    case Create(p, _, _, _, _, _) => MetaInfo(None, Some(p), None, WriteMetadata, TransactionCoordinator)
  }

  // ------------------------------------------------------------------ routing

  /** A cluster that can be laid out: the nodes are a multiple of the replicas of a group. */
  ghost predicate Layable(c: Context) {
    Distinct(c) && 0 < c.replicas <= TotalNodes(c) && TotalNodes(c) % c.replicas == 0
  }

  predicate Holds(c: Context, at: Address, group: nat)
    requires 0 < c.replicas <= TotalNodes(c) && TotalNodes(c) % c.replicas == 0 && Knows(c, at)
  {
    NodeContainsRaftGroup(IndexOf(c, at), TotalNodes(c), group, c.replicas)
  }

  /** Some node holds the group. */
  lemma SomeoneHoldsGroup(c: Context, group: nat) returns (at: Address)
    requires Layable(c)
    ensures Knows(c, at) && Holds(c, at, group)
  {
    hide NodeId, IndexOf;
    GroupHasReplicas(TotalNodes(c), group, c.replicas);
    assert NodesOf(TotalNodes(c), group, c.replicas) != {};
    var i :| i in NodesOf(TotalNodes(c), group, c.replicas);
    at := IndexIsTaken(c, i);
  }

  /** The groups of this node. */
  method LocalGroups(c: Context, groups: nat) returns (held: set<nat>)
    requires Layable(c)
    ensures Started(c, held, groups)
  {
    hide NodeId, IndexOf, NodeContainsRaftGroup;
    held := {};
    var index := NodeIndex(c);
    for g := 0 to groups
      invariant forall h: nat :: h in held <==> h < g && Holds(c, c.address, h)
    {
      if NodeContainsRaftGroup(index, TotalNodes(c), g, c.replicas) {
        held := held + {g};
      }
    }
  }

  /** For every group a node that holds it: this one if possible, else the first peer that does.
      There always is one. */
  method RemoteGroups(c: Context, groups: nat) returns (route: map<nat, Address>)
    requires Layable(c)
    ensures forall g: nat :: g in route <==> g < groups
    ensures forall g :: g in route ==> Knows(c, route[g]) && Holds(c, route[g], g)
    ensures forall g :: g in route && Holds(c, c.address, g) ==> route[g] == c.address
  {
    hide NodeId, IndexOf, NodeContainsRaftGroup;
    route := map[];
    var index := NodeIndex(c);
    var indexed := PeersWithNodeIndices(c);
    for g := 0 to groups
      invariant forall h: nat :: h in route <==> h < g
      invariant forall h :: h in route ==> Knows(c, route[h]) && Holds(c, route[h], h)
      invariant forall h :: h in route && Holds(c, c.address, h) ==> route[h] == c.address
    {
      if NodeContainsRaftGroup(index, TotalNodes(c), g, c.replicas) {
        route := route[g := c.address];
      } else {
        ghost var holder := SomeoneHoldsGroup(c, g);
        ghost var found :| 0 <= found < |c.peers| && c.peers[found] == holder;
        var k := 0;
        while !NodeContainsRaftGroup(indexed[k].1, TotalNodes(c), g, c.replicas)
          invariant 0 <= k <= found
          decreases found - k
        {
          k := k + 1;
        }
        route := route[g := indexed[k].0];
      }
    }
  }

  /** The group that a request goes to, if it is for one. */
  function GroupOf(m: MetaInfo, groups: nat): Option<nat>
    requires groups > 0
  {
    if m.distribution != RaftGroup then None
    else if m.raftGroup.Some? then m.raftGroup
    else if m.inode.Some? then Some(m.inode.value % groups)
    else None
  }

  /** Whether a node that has started some groups can handle a request itself. */
  predicate CanHandleLocally(c: Context, started: set<nat>, m: MetaInfo, groups: nat)
    requires 0 < c.replicas <= TotalNodes(c) && TotalNodes(c) % c.replicas == 0 && groups > 0
    requires m.distribution == RaftGroup ==> m.raftGroup.Some? || m.inode.Some?
  {
    match m.distribution
    case AnyNode | TransactionCoordinator | SpecificNode => true
    case RaftGroup =>
      if m.raftGroup.Some? then m.raftGroup.value in started else Holds(c, c.address, m.inode.value % groups)
  }

  /** The groups that LocalGroups starts at a node. */
  ghost predicate Started(c: Context, started: set<nat>, groups: nat)
    requires Layable(c)
  {
    forall g: nat :: g in started <==> g < groups && Holds(c, c.address, g)
  }

  /** A request is for a group, or for an inode, or can be handled anywhere; and only one for an
      inode can be forwarded. */
  lemma RequestsAreRoutable(r: Message)
    ensures InfoOf(r).distribution == RaftGroup ==> InfoOf(r).raftGroup.Some? != InfoOf(r).inode.Some?
  {}

  /** A node handles a request itself exactly if it has started the request's group, or there is none;
      so the group is there when it is looked up. */
  lemma HandlesWhatItStarted(c: Context, started: set<nat>, r: Message, groups: nat)
    requires Layable(c) && groups > 0 && Started(c, started, groups)
    ensures InfoOf(r).distribution == RaftGroup ==> InfoOf(r).raftGroup.Some? || InfoOf(r).inode.Some?
    ensures CanHandleLocally(c, started, InfoOf(r), groups) <==>
            GroupOf(InfoOf(r), groups).Some? ==> GroupOf(InfoOf(r), groups).value in started
  {
    hide NodeId, IndexOf, NodeContainsRaftGroup, Sort, InfoOf;
    RequestsAreRoutable(r);
  }

  /** One hop: a node that gets a request for an inode forwards it exactly if it does not hold the
      inode's group, and the node it is forwarded to holds the group, and handles it. */
  lemma ForwardedOnce(c: Context, target: Context, r: Message, groups: nat, started: set<nat>, started': set<nat>,
                      route: map<nat, Address>)
    requires Layable(c) && Layable(target) && SameCluster(c, target) && groups > 0
    requires Started(c, started, groups) && Started(target, started', groups)
    requires InfoOf(r).distribution == RaftGroup && InfoOf(r).raftGroup.None?
    // the table that RemoteGroups builds at the first node, and the node that it names
    requires forall g :: g in route ==> Knows(c, route[g]) && Holds(c, route[g], g)
    requires InfoOf(r).inode.Some? ==> InfoOf(r).inode.value % groups in route
                                       && route[InfoOf(r).inode.value % groups] == target.address
    ensures InfoOf(r).inode.Some?
    ensures var g := InfoOf(r).inode.value % groups;
            && (CanHandleLocally(c, started, InfoOf(r), groups) <==> Holds(c, c.address, g))
            && Holds(target, target.address, g) && g in started'
            && CanHandleLocally(target, started', InfoOf(r), groups)
  {
    hide NodeId, IndexOf, NodeContainsRaftGroup, Sort, InfoOf;
    RequestsAreRoutable(r);
    SameIds(c, target);
    IndicesAgree(c, target, target.address, target.address);
  }

  /** A request for a group that is sent by the table reaches a node that has started the group. */
  lemma GroupRequestArrives(c: Context, target: Context, r: Message, groups: nat, started': set<nat>,
                            route: map<nat, Address>)
    requires Layable(c) && Layable(target) && SameCluster(c, target) && groups > 0
    requires Started(target, started', groups)
    requires InfoOf(r).distribution == RaftGroup && InfoOf(r).raftGroup.Some? && InfoOf(r).raftGroup.value < groups
    requires forall g :: g in route ==> Knows(c, route[g]) && Holds(c, route[g], g)
    requires InfoOf(r).raftGroup.value in route && route[InfoOf(r).raftGroup.value] == target.address
    ensures InfoOf(r).raftGroup.value in started' && CanHandleLocally(target, started', InfoOf(r), groups)
  {
    hide NodeId, IndexOf, NodeContainsRaftGroup, Sort, InfoOf;
    SameIds(c, target);
    IndicesAgree(c, target, target.address, target.address);
  }

  // ------------------------------------------------------------------ members of a group

  /** The members that a node starts a group with: the peers that hold it, and itself. */
  ghost function Members(c: Context, group: nat): set<nat>
    requires 0 < c.replicas <= TotalNodes(c) && TotalNodes(c) % c.replicas == 0
  {
    (set k | 0 <= k < |c.peers| && Holds(c, c.peers[k], group) :: NodeId(c.peers[k])) + {NodeId(c.address)}
  }

  /** All nodes that hold a group agree on its members. */
  lemma MembersAgree(c: Context, c': Context, group: nat)
    requires Layable(c) && SameCluster(c, c') && Layable(c') && Holds(c, c.address, group)
    requires Holds(c', c'.address, group)
    ensures Members(c, group) == Members(c', group)
  {
    MembersWithin(c, c', group);
    assert SameCluster(c', c);
    MembersWithin(c', c, group);
  }

  lemma MembersWithin(c: Context, c': Context, group: nat)
    requires Layable(c) && SameCluster(c, c') && Layable(c') && Holds(c, c.address, group)
    ensures Members(c, group) <= Members(c', group)
  {
    hide NodeId, IndexOf, NodeContainsRaftGroup, Sort;
    SameIds(c, c');
    forall id | id in Members(c, group)
      ensures id in Members(c', group)
    {
      var at: Address :| Knows(c, at) && Holds(c, at, group) && NodeId(at) == id;
      IndicesAgree(c, c', at, at);
      if at != c'.address {
        var k :| 0 <= k < |c'.peers| && c'.peers[k] == at;
      }
    }
  }
}
