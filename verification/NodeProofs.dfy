/** Node identity over whole runs of commands. */
module NodeProofs {
  import opened Metadata
  import opened Sorting
  import opened ClusterSpec

  predicate IsLive(d: Data, n: NodeInfo) {
    n in d.metaNodes || n in d.dataNodes
  }

  ghost predicate StrictlySortedById(ns: seq<NodeInfo>) {
    forall i, j :: 0 <= i < j < |ns| ==> ns[i].id < ns[j].id
  }

  /** given records which host each id was first given to. */
  ghost predicate NodesInv(d: Data, given: map<nat, string>) {
    && (forall id :: id in given ==> 1 <= id <= d.maxNodeID)
    && (forall n :: IsLive(d, n) ==> n.id in given && given[n.id] == n.tcpHost)
    && (forall m, n :: IsLive(d, m) && IsLive(d, n) && m.tcpHost == n.tcpHost ==> m.id == n.id)
    && StrictlySortedById(d.dataNodes)
    && SortedById(d.metaNodes)
  }

  ghost predicate Extends(a: map<nat, string>, b: map<nat, string>) {
    forall id :: id in a ==> id in b && b[id] == a[id]
  }

  lemma InsertedMember(ns: seq<NodeInfo>, n: NodeInfo, ns': seq<NodeInfo>, x: NodeInfo)
    requires NodeInserted(ns, n, ns')
    ensures x in ns' <==> x in ns || x == n
  {
    assert x in ns' <==> x in multiset(ns');
    assert x in ns <==> x in multiset(ns);
  }

  lemma {:induction false} IdOfHostFound(ns: seq<NodeInfo>, tcpHost: string, id: nat)
    requires id == IdOfHost(ns, tcpHost)
    requires forall n :: n in ns ==> n.id >= 1
    ensures id != 0 ==> exists n :: n in ns && n.tcpHost == tcpHost && n.id == id
    ensures id == 0 ==> forall n :: n in ns ==> n.tcpHost != tcpHost
  {
    if ns == [] {
    } else {
      if ns[0].tcpHost == tcpHost {
        assert ns[0] in ns;
      } else {
        IdOfHostFound(ns[1..], tcpHost, id);
      }
    }
  }

  /** What a create command adds to the history: a fresh id, or nothing when the id is reused. */
  function NewGiven(d: Data, tcpHost: string, given: map<nat, string>): map<nat, string> {
    if IdOfHost(d.metaNodes, tcpHost) == 0 then given[d.maxNodeID + 1 := tcpHost] else given
  }

  /** The new node agrees with all live nodes: same address if and only if same id. */
  lemma NewNodeAgrees(d: Data, host: string, tcpHost: string, given: map<nat, string>, m: NodeInfo)
    requires NodesInv(d, given) && !HasHost(d.dataNodes, tcpHost) && IsLive(d, m)
    ensures m.tcpHost == tcpHost <==> m.id == NewId(d, tcpHost)
    ensures m in d.dataNodes ==> m.id != NewId(d, tcpHost)
  {
    var id := IdOfHost(d.metaNodes, tcpHost);
    assert forall n :: n in d.metaNodes ==> IsLive(d, n);
    IdOfHostFound(d.metaNodes, tcpHost, id);
    if id != 0 {
      var n :| n in d.metaNodes && n.tcpHost == tcpHost && n.id == id;
      assert IsLive(d, n);
    }
  }

  /** A live node is remembered, and the new node is remembered under its own address. */
  lemma NewGivenRight(d: Data, host: string, tcpHost: string, given: map<nat, string>)
    requires NodesInv(d, given) && !HasHost(d.dataNodes, tcpHost)
    ensures var g := NewGiven(d, tcpHost, given);
            && Extends(given, g)
            && NewId(d, tcpHost) in g && g[NewId(d, tcpHost)] == tcpHost
            && forall id :: id in g ==> 1 <= id <= NewMax(d, tcpHost)
  {
    var id := IdOfHost(d.metaNodes, tcpHost);
    assert forall n :: n in d.metaNodes ==> IsLive(d, n);
    IdOfHostFound(d.metaNodes, tcpHost, id);
    if id != 0 {
      var n :| n in d.metaNodes && n.tcpHost == tcpHost && n.id == id;
      assert IsLive(d, n);
    }
  }

  /** Adding the new node to either list keeps the invariant, as far as it speaks of single nodes. */
  lemma AddedNode(d: Data, host: string, tcpHost: string, given: map<nat, string>, d': Data)
    requires NodesInv(d, given) && !HasHost(d.dataNodes, tcpHost)
    requires d'.maxNodeID == NewMax(d, tcpHost)
    requires forall x :: IsLive(d', x) <==> IsLive(d, x) || x == NodeInfo(NewId(d, tcpHost), host, tcpHost)
    requires StrictlySortedById(d'.dataNodes) && SortedById(d'.metaNodes)
    ensures NodesInv(d', NewGiven(d, tcpHost, given))
  {
    var g, node := NewGiven(d, tcpHost, given), NodeInfo(NewId(d, tcpHost), host, tcpHost);
    NewGivenRight(d, host, tcpHost, given);
    hide NewGiven, NewId, NewMax, HasHost, IsLive, SortedById, StrictlySortedById;
    forall m, n | IsLive(d', m) && IsLive(d', n) && m.tcpHost == n.tcpHost
      ensures m.id == n.id
    {
      if IsLive(d, m) {
        NewNodeAgrees(d, host, tcpHost, given, m);
      }
      if IsLive(d, n) {
        NewNodeAgrees(d, host, tcpHost, given, n);
      }
    }
  }

  /** Sorting by distinct ids leaves no two equal ids. */
  lemma InsertedStrict(ns: seq<NodeInfo>, n: NodeInfo, ns': seq<NodeInfo>)
    requires NodeInserted(ns, n, ns') && StrictlySortedById(ns)
    requires forall m :: m in ns ==> m.id != n.id
    ensures StrictlySortedById(ns')
  {
    forall i, j | 0 <= i < j < |ns'|
      ensures ns'[i].id < ns'[j].id
    {
      if ns'[i].id == ns'[j].id {
        InsertedMember(ns, n, ns', ns'[i]);
        InsertedMember(ns, n, ns', ns'[j]);
        OneWithId(ns, n, ns'[i], ns'[j]);
        Twice(ns', i, j);
        AtMostOnce(ns, n, ns'[i]);
        assert false;
      }
    }
  }

  lemma OneWithId(ns: seq<NodeInfo>, n: NodeInfo, x: NodeInfo, y: NodeInfo)
    requires StrictlySortedById(ns) && forall m :: m in ns ==> m.id != n.id
    requires (x in ns || x == n) && (y in ns || y == n) && x.id == y.id
    ensures x == y
  {
  }

  lemma AtMostOnce(ns: seq<NodeInfo>, n: NodeInfo, x: NodeInfo)
    requires StrictlySortedById(ns) && forall m :: m in ns ==> m.id != n.id
    ensures (multiset(ns) + multiset{n})[x] <= 1
  {
    if x in ns {
      SortedOnce(ns, x);
    } else {
      assert x !in multiset(ns);
    }
  }

  lemma {:induction false} SortedOnce(ns: seq<NodeInfo>, x: NodeInfo)
    requires StrictlySortedById(ns)
    ensures multiset(ns)[x] <= 1
  {
    if ns == [] {
    } else {
      assert ns == [ns[0]] + ns[1..];
      SortedOnce(ns[1..], x);
      if x == ns[0] {
        assert x !in ns[1..];
        assert x !in multiset(ns[1..]);
      }
    }
  }

  /** One step of Without: what is left of the rest comes from the rest. */
  lemma WithoutMember(ns: seq<NodeInfo>, id: nat, j: nat)
    requires ns != [] && j < |Without(ns[1..], id)|
    ensures exists k :: 1 <= k < |ns| && ns[k] == Without(ns[1..], id)[j]
  {
    var x := Without(ns[1..], id)[j];
    assert x in ns[1..];
    var k :| 0 <= k < |ns[1..]| && ns[1..][k] == x;
    assert ns[k + 1] == x;
  }

  lemma WithoutStep(ns: seq<NodeInfo>, id: nat)
    requires ns != []
    ensures Without(ns, id) == (if ns[0].id != id then [ns[0]] else []) + Without(ns[1..], id)
  {
  }

  lemma {:induction false} WithoutSorted(ns: seq<NodeInfo>, id: nat)
    requires SortedById(ns)
    ensures SortedById(Without(ns, id))
  {
    if ns == [] {
    } else {
      WithoutStep(ns, id);
      hide Without;
      WithoutSorted(ns[1..], id);
      forall j | 0 <= j < |Without(ns[1..], id)|
        ensures ns[0].id <= Without(ns[1..], id)[j].id
      {
        WithoutMember(ns, id, j);
      }
    }
  }

  lemma {:induction false} WithoutStrict(ns: seq<NodeInfo>, id: nat)
    requires StrictlySortedById(ns)
    ensures StrictlySortedById(Without(ns, id))
  {
    if ns == [] {
    } else {
      WithoutStep(ns, id);
      hide Without;
      WithoutStrict(ns[1..], id);
      forall j | 0 <= j < |Without(ns[1..], id)|
        ensures ns[0].id < Without(ns[1..], id)[j].id
      {
        WithoutMember(ns, id, j);
      }
    }
  }

  lemma CreateMetaKeeps(d: Data, host: string, tcpHost: string, d': Data, given: map<nat, string>)
    requires NodesInv(d, given) && Step(d, CreateMetaNode(host, tcpHost), d') && !HasHost(d.dataNodes, tcpHost)
    ensures NodesInv(d', NewGiven(d, tcpHost, given))
  {
    var node := NodeInfo(NewId(d, tcpHost), host, tcpHost);
    hide NewGiven, NewId, NewMax, HasHost, SortedById, StrictlySortedById;
    forall x
      ensures IsLive(d', x) <==> IsLive(d, x) || x == node
    {
      InsertedMember(d.metaNodes, node, d'.metaNodes, x);
    }
    AddedNode(d, host, tcpHost, given, d');
  }

  lemma CreateDataKeeps(d: Data, host: string, tcpHost: string, d': Data, given: map<nat, string>)
    requires NodesInv(d, given) && Step(d, CreateDataNode(host, tcpHost), d') && !HasHost(d.dataNodes, tcpHost)
    ensures NodesInv(d', NewGiven(d, tcpHost, given))
  {
    var node := NodeInfo(NewId(d, tcpHost), host, tcpHost);
    hide NewGiven, NewId, NewMax, HasHost, SortedById, StrictlySortedById;
    forall x
      ensures IsLive(d', x) <==> IsLive(d, x) || x == node
    {
      InsertedMember(d.dataNodes, node, d'.dataNodes, x);
    }
    forall m | m in d.dataNodes
      ensures m.id != node.id
    {
      NewNodeAgrees(d, host, tcpHost, given, m);
    }
    InsertedStrict(d.dataNodes, node, d'.dataNodes);
    AddedNode(d, host, tcpHost, given, d');
  }

  lemma DeletedKeeps(d: Data, d': Data, given: map<nat, string>)
    requires NodesInv(d, given) && d'.maxNodeID == d.maxNodeID
    requires forall x :: IsLive(d', x) ==> IsLive(d, x)
    requires StrictlySortedById(d'.dataNodes) && SortedById(d'.metaNodes)
    ensures NodesInv(d', given)
  {
  }

  /** Every command keeps node identity; the history only ever grows. */
  lemma StepNodes(d: Data, c: Command, d': Data, given: map<nat, string>) returns (given': map<nat, string>)
    requires NodesInv(d, given) && Step(d, c, d')
    ensures NodesInv(d', given') && Extends(given, given')
  {
    hide SortedById, StrictlySortedById, NewGiven;
    given' := given;
    match c
    case CreateMetaNode(host, tcpHost) =>
      if !HasHost(d.dataNodes, tcpHost) {
        CreateMetaKeeps(d, host, tcpHost, d', given);
        NewGivenRight(d, host, tcpHost, given);
        given' := NewGiven(d, tcpHost, given);
      }
    case CreateDataNode(host, tcpHost) =>
      if !HasHost(d.dataNodes, tcpHost) {
        CreateDataKeeps(d, host, tcpHost, d', given);
        NewGivenRight(d, host, tcpHost, given);
        given' := NewGiven(d, tcpHost, given);
      }
    case DeleteMetaNode(id, now) =>
      WithoutSorted(d.metaNodes, id);
      DeletedKeeps(d, d', given);
    case DeleteDataNode(id) =>
      WithoutStrict(d.dataNodes, id);
      DeletedKeeps(d, d', given);
    case CreateShardGroup(db, policy, t) =>
      DeletedKeeps(d, d', given);
    case DeleteShardGroup(db, policy, gid, now) =>
      DeletedKeeps(d, d', given);
  }

  /** A new address gets the next id; the address of a meta node keeps that node's id, and uses none up. */
  lemma NewIdIff(d: Data, tcpHost: string)
    requires forall m :: m in d.metaNodes ==> 1 <= m.id <= d.maxNodeID
    ensures if exists m :: m in d.metaNodes && m.tcpHost == tcpHost
            then NewMax(d, tcpHost) == d.maxNodeID
                 && exists m :: m in d.metaNodes && m.tcpHost == tcpHost && m.id == NewId(d, tcpHost)
            else NewMax(d, tcpHost) == NewId(d, tcpHost) == d.maxNodeID + 1
  {
    IdOfHostFound(d.metaNodes, tcpHost, IdOfHost(d.metaNodes, tcpHost));
  }

  /** A node that is created is listed with the host and the address it was given, and no other entry changes. */
  lemma CreatedNode(d: Data, c: Command, d': Data, x: NodeInfo)
    requires Step(d, c, d') && (c.CreateMetaNode? || c.CreateDataNode?)
    requires forall i :: 0 <= i < |d.dataNodes| ==> d.dataNodes[i].tcpHost != c.tcpHost
    ensures x.host == c.host && x.tcpHost == c.tcpHost && x.id == NewId(d, c.tcpHost) ==>
              x in (if c.CreateMetaNode? then d'.metaNodes else d'.dataNodes)
    ensures !(x.host == c.host && x.tcpHost == c.tcpHost) ==>
              (x in d'.metaNodes <==> x in d.metaNodes) && (x in d'.dataNodes <==> x in d.dataNodes)
    ensures d'.maxNodeID == NewMax(d, c.tcpHost)
    ensures if c.CreateMetaNode? then d'.dataNodes == d.dataNodes && |d'.metaNodes| == |d.metaNodes| + 1
            else d'.metaNodes == d.metaNodes && |d'.dataNodes| == |d.dataNodes| + 1
  {
    var n := NodeInfo(NewId(d, c.tcpHost), c.host, c.tcpHost);
    assert !HasHost(d.dataNodes, c.tcpHost);
    hide NewId, NewMax, HasHost, SortedById;
    if c.CreateMetaNode? {
      InsertedMember(d.metaNodes, n, d'.metaNodes, x);
      InsertedLength(d.metaNodes, n, d'.metaNodes);
    } else {
      InsertedMember(d.dataNodes, n, d'.dataNodes, x);
      InsertedLength(d.dataNodes, n, d'.dataNodes);
    }
  }

  lemma InsertedLength(ns: seq<NodeInfo>, n: NodeInfo, ns': seq<NodeInfo>)
    requires NodeInserted(ns, n, ns')
    ensures |ns'| == |ns| + 1
  {
    assert |ns'| == |multiset(ns')| && |ns| == |multiset(ns)|;
  }

  /** The history from state i of a run, for any later state j. */
  lemma {:induction false} History(states: seq<Data>, commands: seq<Command>, i: nat, j: nat, given: map<nat, string>)
    returns (given': map<nat, string>)
    requires Run(states, commands) && i <= j < |states| && NodesInv(states[i], given)
    ensures NodesInv(states[j], given') && Extends(given, given')
    decreases j - i
  {
    hide Step, NodesInv;
    if i == j {
      given' := given;
    } else {
      var g := StepNodes(states[i], commands[i], states[i + 1], given);
      given' := History(states, commands, i + 1, j, g);
    }
  }

  /** Metadata without nodes. */
  ghost predicate NoNodes(d: Data) {
    d.metaNodes == [] && d.dataNodes == [] && d.maxNodeID == 0
  }

  /**
   Within one state, two nodes have one id if and only if they have one address,
   ids lie between 1 and the maximum, and the data nodes are strictly sorted.
   */
  lemma NodeIdentity(states: seq<Data>, commands: seq<Command>, i: nat, m: NodeInfo, n: NodeInfo)
    requires Run(states, commands) && NoNodes(states[0]) && i < |states|
    requires IsLive(states[i], m) && IsLive(states[i], n)
    ensures m.id == n.id <==> m.tcpHost == n.tcpHost
    ensures 1 <= m.id <= states[i].maxNodeID
    ensures StrictlySortedById(states[i].dataNodes)
  {
    var g := History(states, commands, 0, i, map[]);
  }

  /** Over a whole run, an id once given to one address is never given to another. */
  lemma IdNeverReassigned(states: seq<Data>, commands: seq<Command>, i: nat, j: nat, m: NodeInfo, n: NodeInfo)
    requires Run(states, commands) && NoNodes(states[0]) && i <= j < |states|
    requires IsLive(states[i], m) && IsLive(states[j], n) && m.id == n.id
    ensures m.tcpHost == n.tcpHost
  {
    var g := History(states, commands, 0, i, map[]);
    var h := History(states, commands, i, j, g);
  }
}
