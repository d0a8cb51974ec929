/** The owners of the shards over whole runs: distinct within a group, and when they are live data nodes. */
module OwnerProofs {
  import opened Options
  import opened Metadata
  import opened Times
  import opened Placement
  import opened ClusterSpec
  import opened NodeProofs
  import opened GroupProofs
  import opened ShardProofs

  // ---------------------------------------------------------------- owners only leave

  ghost predicate OwnersWithin(s: Shard, s': Shard) {
    forall x :: x in s'.owners ==> x in s.owners
  }

  /** No shard of d' is new, and none has got an owner. */
  ghost predicate InPlace(d: Data, d': Data) {
    forall a: Loc :: ValidLoc(d', a) ==> ValidLoc(d, a) && OwnersWithin(ShardAt(d, a), ShardAt(d', a))
  }

  lemma RelinquishWithin(s: Shard, id: nat)
    ensures OwnersWithin(s, Relinquish(s, id))
  {
  }

  lemma DeleteMetaInPlace(d: Data, id: nat, now: int, d': Data)
    requires d'.databases == RelinquishAll(d.databases, id, now)
    ensures InPlace(d, d')
  {
    hide OwnersWithin, Relinquish;
    forall a: Loc | ValidLoc(d', a)
      ensures ValidLoc(d, a) && OwnersWithin(ShardAt(d, a), ShardAt(d', a))
    {
      RelinquishInPlace(d, id, now, d', a);
      assert PolicyAt(d', a.l) == RelinquishPolicy(PolicyAt(d, a.l), id, now);
      assert PolicyAt(d', a.l).groups[a.k] == RelinquishGroup(PolicyAt(d, a.l).groups[a.k], id, now);
      RelinquishWithin(ShardAt(d, a), id);
    }
  }

  lemma MarkedInPlace(d: Data, l: Place, gid: nat, now: int, d': Data)
    requires ValidPlace(d, l)
    requires d' == SetGroups(d, l, MarkDeleted(PolicyAt(d, l).groups, gid, now)).(index := d'.index)
    ensures InPlace(d, d')
  {
    hide SetGroups;
    forall a: Loc | ValidLoc(d', a)
      ensures ValidLoc(d, a) && OwnersWithin(ShardAt(d, a), ShardAt(d', a))
    {
      MarkInPlace(d, l, gid, now, d', a);
      assert ValidPlace(SetGroups(d, l, MarkDeleted(PolicyAt(d, l).groups, gid, now)), a.l);
    }
  }

  lemma SameInPlace(d: Data, d': Data)
    requires d'.databases == d.databases
    ensures InPlace(d, d')
  {
  }

  /** The command makes a group. */
  predicate Creates(d: Data, c: Command) {
    && c.CreateShardGroup? && d.dataNodes != []
    && var l := FindPolicy(d, c.db, c.policy);
       l.Some? && GroupAt(PolicyAt(d, l.value).groups, c.t).None?
  }

  /** Every command that makes no group only ever takes owners away. */
  lemma StepInPlace(d: Data, c: Command, d': Data)
    requires Step(d, c, d') && !Creates(d, c)
    ensures InPlace(d, d')
  {
    hide InPlace, RelinquishAll, SetGroups, NodeInserted, FindPolicy;
    match c
    case DeleteMetaNode(id, now) =>
      if |Without(d.metaNodes, id)| == |d.metaNodes| {
        SameInPlace(d, d');
      } else {
        DeleteMetaInPlace(d, id, now, d');
      }
    case DeleteShardGroup(db, policy, gid, now) =>
      var l := FindPolicy(d, db, policy);
      if l.None? {
        SameInPlace(d, d');
      } else {
        MarkedInPlace(d, l.value, gid, now, d');
      }
    case CreateShardGroup(_, _, _) => SameInPlace(d, d');
    case CreateMetaNode(_, _) => SameInPlace(d, d');
    case CreateDataNode(_, _) => SameInPlace(d, d');
    case DeleteDataNode(_) => SameInPlace(d, d');
  }

  // ---------------------------------------------------------------- distinct within a group

  ghost predicate Disjoint(s: Shard, t: Shard) {
    forall x :: x in s.owners ==> x !in t.owners
  }

  /** No node owns two shards of one group. */
  ghost predicate OwnersApart(d: Data) {
    forall a: Loc, b: Loc :: ValidLoc(d, a) && ValidLoc(d, b) && a.l == b.l && a.k == b.k && a.s != b.s ==>
      Disjoint(ShardAt(d, a), ShardAt(d, b))
  }

  lemma InPlaceKeepsApart(d: Data, d': Data)
    requires OwnersApart(d) && InPlace(d, d')
    ensures OwnersApart(d')
  {
    forall a: Loc, b: Loc | ValidLoc(d', a) && ValidLoc(d', b) && a.l == b.l && a.k == b.k && a.s != b.s
      ensures Disjoint(ShardAt(d', a), ShardAt(d', b))
    {
      assert OwnersWithin(ShardAt(d, a), ShardAt(d', a)) && OwnersWithin(ShardAt(d, b), ShardAt(d', b));
      assert Disjoint(ShardAt(d, a), ShardAt(d, b));
    }
  }

  /** The shards of a new group share no owner. */
  lemma NewDisjoint(d: Data, p: Policy, shards: seq<Shard>, i: nat, i': nat)
    requires d.dataNodes != [] && DistinctNodeIds(d.dataNodes) && NewShards(d, p, shards)
    requires i < |shards| && i' < |shards| && i != i'
    ensures Disjoint(shards[i], shards[i'])
  {
    hide Seat, DistinctNodeIds;
    forall x | x in shards[i].owners && x in shards[i'].owners
      ensures false
    {
      var j :| 0 <= j < |shards[i].owners| && shards[i].owners[j] == x;
      var j' :| 0 <= j' < |shards[i'].owners| && shards[i'].owners[j'] == x;
      OwnersAllDifferent(shards, d.dataNodes, d.index % |d.dataNodes|, ReplicaN(d, p), i, j, i', j');
    }
  }

  lemma CreateKeepsApart(d: Data, l: Place, t: int, d': Data)
    requires OwnersApart(d) && DistinctNodeIds(d.dataNodes)
    requires ValidPlace(d, l) && d.dataNodes != [] && GroupCreated(d, l, t, d')
    ensures OwnersApart(d')
  {
    hide GroupInserted, NewShards, GroupCreated, DistinctNodeIds, Disjoint;
    var shards, groups := CreatedParts(d, l, t, d');
    forall a: Loc, b: Loc | ValidLoc(d', a) && ValidLoc(d', b) && a.l == b.l && a.k == b.k && a.s != b.s
      ensures Disjoint(ShardAt(d', a), ShardAt(d', b))
    {
      var x := OldLoc(d, l, t, d', shards, groups, a);
      if x.Some? {
        var y := Loc(x.value.l, x.value.k, b.s);
        assert ValidLoc(d, y) && ShardAt(d, y) == ShardAt(d', b);
        assert Disjoint(ShardAt(d, x.value), ShardAt(d, y));
      } else {
        NewDisjoint(d, PolicyAt(d, l), shards, a.s, b.s);
      }
    }
  }

  lemma StepKeepsApart(d: Data, c: Command, d': Data)
    requires OwnersApart(d) && DistinctNodeIds(d.dataNodes) && Step(d, c, d')
    ensures OwnersApart(d')
  {
    hide OwnersApart, InPlace, GroupCreated, DistinctNodeIds;
    if Creates(d, c) {
      CreateKeepsApart(d, FindPolicy(d, c.db, c.policy).value, c.t, d');
    } else {
      StepInPlace(d, c, d');
      InPlaceKeepsApart(d, d');
    }
  }

  lemma {:induction false} ApartFrom(states: seq<Data>, commands: seq<Command>, i: nat, j: nat, given: map<nat, string>)
    requires Run(states, commands) && i <= j < |states| && NodesInv(states[i], given) && OwnersApart(states[i])
    ensures OwnersApart(states[j])
    decreases j - i
  {
    hide Step, NodesInv, OwnersApart, DistinctNodeIds;
    if i == j {
    } else {
      DataNodesDistinct(states[i], given);
      StepKeepsApart(states[i], commands[i], states[i + 1]);
      var g := StepNodes(states[i], commands[i], states[i + 1], given);
      ApartFrom(states, commands, i + 1, j, g);
    }
  }

  /**
   In every state of every run from blank metadata, all owners of a group are
   different nodes: within one shard, and between any two of its shards.
   */
  lemma GroupOwnersDistinct(states: seq<Data>, commands: seq<Command>, n: nat, a: Loc, b: Loc)
    requires Run(states, commands) && Blank(states[0]) && n < |states|
    requires ValidLoc(states[n], a) && ValidLoc(states[n], b) && a.l == b.l && a.k == b.k
    ensures NoDuplicates(ShardAt(states[n], a).owners)
    ensures a.s != b.s ==> Disjoint(ShardAt(states[n], a), ShardAt(states[n], b))
  {
    var g := RunKeepsInv(states, commands, n);
    var d := states[n];
    assert NoDuplicates(ShardAt(d, a).owners) by {
      assert PolicyOk(d, a.l);
      assert GroupOk(PolicyAt(d, a.l).groups[a.k], PolicyAt(d, a.l).duration, d.maxShardGroupID, d.maxShardID);
    }
    BlankInv(states[0]);
    BlankApart(states[0]);
    hide Run, Blank, NodesInv, PoliciesOk, UniqueShards, Disjoint;
    ApartFrom(states, commands, 0, n, map[]);
  }

  lemma BlankApart(d: Data)
    requires Blank(d)
    ensures OwnersApart(d) && OwnersLive(d)
  {
    forall a: Loc
      ensures !ValidLoc(d, a)
    {
      assert ValidPlace(d, a.l) ==> PolicyAt(d, a.l).groups == [];
    }
  }

  // ---------------------------------------------------------------- owners that are gone

  predicate HasNode(ns: seq<NodeInfo>, id: nat) {
    exists n :: n in ns && n.id == id
  }

  /** Every owner of every shard is a data node. */
  ghost predicate OwnersLive(d: Data) {
    forall a: Loc, x :: ValidLoc(d, a) && x in ShardAt(d, a).owners ==> HasNode(d.dataNodes, x)
  }

  ghost predicate Owns(d: Data, id: nat) {
    exists a: Loc :: ValidLoc(d, a) && id in ShardAt(d, a).owners
  }

  lemma NodeStays(ns: seq<NodeInfo>, id: nat, x: nat)
    ensures HasNode(Without(ns, id), x) <==> HasNode(ns, x) && x != id
  {
    if HasNode(ns, x) && x != id {
      var n :| n in ns && n.id == x;
      assert n in Without(ns, id);
    }
    if HasNode(Without(ns, id), x) {
      var n :| n in Without(ns, id) && n.id == x;
      assert n in ns;
    }
  }

  lemma {:induction false} NothingTaken(ns: seq<NodeInfo>, id: nat)
    ensures |Without(ns, id)| == |ns| <==> !HasNode(ns, id)
  {
    if ns == [] {
    } else {
      NothingTaken(ns[1..], id);
      if ns[0].id == id {
        assert ns[0] in ns;
      } else if HasNode(ns, id) {
        var n :| n in ns && n.id == id;
        assert n in ns[1..];
      }
    }
  }

  /**
   After a data node is deleted, every owner is a data node if and only if that
   was so before and no shard listed the node.
   */
  lemma DeleteDataNodeIff(d: Data, id: nat, d': Data)
    requires Step(d, DeleteDataNode(id), d')
    ensures OwnersLive(d') <==> OwnersLive(d) && !Owns(d, id)
  {
    NothingTaken(d.dataNodes, id);
    hide HasNode, Without;
    if OwnersLive(d) && !Owns(d, id) {
      forall a: Loc, x | ValidLoc(d', a) && x in ShardAt(d', a).owners
        ensures HasNode(d'.dataNodes, x)
      {
        assert ValidLoc(d, a) && x in ShardAt(d, a).owners;
        NodeStays(d.dataNodes, id, x);
      }
    }
    if OwnersLive(d') {
      forall a: Loc, x | ValidLoc(d, a) && x in ShardAt(d, a).owners
        ensures HasNode(d.dataNodes, x) && x != id
      {
        assert ValidLoc(d', a) && x in ShardAt(d', a).owners;
        NodeStays(d.dataNodes, id, x);
      }
    }
  }

  lemma NodesRemain(d: Data, c: Command, d': Data, x: nat)
    requires Step(d, c, d') && !c.DeleteDataNode? && HasNode(d.dataNodes, x)
    ensures HasNode(d'.dataNodes, x)
  {
    hide GroupCreated, SetGroups, RelinquishAll, FindPolicy;
    if c.CreateDataNode? && !HasHost(d.dataNodes, c.tcpHost) {
      var n :| n in d.dataNodes && n.id == x;
      InsertedMember(d.dataNodes, NodeInfo(NewId(d, c.tcpHost), c.host, c.tcpHost), d'.dataNodes, n);
    } else if Creates(d, c) {
      var shards, groups := CreatedParts(d, FindPolicy(d, c.db, c.policy).value, c.t, d');
    } else if c.DeleteShardGroup? && FindPolicy(d, c.db, c.policy).Some? {
      var l := FindPolicy(d, c.db, c.policy).value;
      SetGroupsKeeps(d, l, MarkDeleted(PolicyAt(d, l).groups, c.gid, c.now));
    }
  }

  lemma CreatedOwnerIsNode(d: Data, l: Place, t: int, d': Data, a: Loc, x: nat)
    requires OwnersLive(d) && ValidPlace(d, l) && d.dataNodes != [] && GroupCreated(d, l, t, d')
    requires ValidLoc(d', a) && x in ShardAt(d', a).owners
    ensures HasNode(d.dataNodes, x)
  {
    hide GroupInserted, GroupCreated, HasNode;
    var shards, groups := CreatedParts(d, l, t, d');
    var before := OldLoc(d, l, t, d', shards, groups, a);
    if before.None? {
      NewOwnerIsNode(d, PolicyAt(d, l), shards, a.s, x);
    }
  }

  lemma NewOwnerIsNode(d: Data, p: Policy, shards: seq<Shard>, i: nat, x: nat)
    requires d.dataNodes != [] && NewShards(d, p, shards) && i < |shards| && x in shards[i].owners
    ensures HasNode(d.dataNodes, x)
  {
    hide Seat;
    var j :| 0 <= j < |shards[i].owners| && shards[i].owners[j] == x;
    OwnersAreNodes(shards, d.dataNodes, d.index % |d.dataNodes|, ReplicaN(d, p), i, j);
    var k :| 0 <= k < |d.dataNodes| && d.dataNodes[k].id == x;
    assert d.dataNodes[k] in d.dataNodes;
  }

  /** Every owner stays a data node, except that a data node is deleted which some shard lists. */
  lemma StepOwnersIff(d: Data, c: Command, d': Data)
    requires OwnersLive(d) && Step(d, c, d')
    ensures OwnersLive(d') <==> !(c.DeleteDataNode? && Owns(d, c.id))
  {
    if c.DeleteDataNode? {
      DeleteDataNodeIff(d, c.id, d');
    } else {
      hide Step, HasNode, GroupCreated;
      if !Creates(d, c) {
        StepInPlace(d, c, d');
      }
      forall a: Loc, x | ValidLoc(d', a) && x in ShardAt(d', a).owners
        ensures HasNode(d'.dataNodes, x)
      {
        if Creates(d, c) {
          CreationStep(d, c, d');
          CreatedOwnerIsNode(d, FindPolicy(d, c.db, c.policy).value, c.t, d', a, x);
        } else {
          assert OwnersWithin(ShardAt(d, a), ShardAt(d', a));
        }
        NodesRemain(d, c, d', x);
      }
    }
  }

  lemma CreationStep(d: Data, c: Command, d': Data)
    requires Step(d, c, d') && Creates(d, c)
    ensures GroupCreated(d, FindPolicy(d, c.db, c.policy).value, c.t, d')
  {
  }

  /** In every run in which no data node is deleted while a shard lists it, every owner is a data node. */
  lemma {:induction false} OwnersStayLive(states: seq<Data>, commands: seq<Command>, j: nat)
    requires Run(states, commands) && Blank(states[0]) && j < |states|
    requires forall k :: 0 <= k < j && commands[k].DeleteDataNode? ==> !Owns(states[k], commands[k].id)
    ensures OwnersLive(states[j])
    decreases j
  {
    hide Step, Owns, Blank, OwnersLive;
    if j == 0 {
      BlankApart(states[0]);
    } else {
      OwnersStayLive(states, commands, j - 1);
      StepOwnersIff(states[j - 1], commands[j - 1], states[j]);
    }
  }

  // ---------------------------------------------------------------- a concrete run

  lemma FirstNode(d: Data, host: string, tcpHost: string) returns (d': Data)
    requires NoNodes(d)
    ensures d' == d.(dataNodes := [NodeInfo(1, host, tcpHost)], maxNodeID := 1)
    ensures Step(d, CreateDataNode(host, tcpHost), d')
  {
    d' := d.(dataNodes := [NodeInfo(1, host, tcpHost)], maxNodeID := 1);
  }

  lemma FirstGroup(d: Data, l: Place, t: int) returns (d': Data, g: Group)
    requires ValidPlace(d, l) && |d.dataNodes| == 1 && PolicyAt(d, l).groups == []
    ensures GroupCreated(d, l, t, d')
    ensures ValidPlace(d', l) && PolicyAt(d', l).groups == [g] && d'.dataNodes == d.dataNodes
    ensures |g.shards| == 1 && g.shards[0].owners == [d.dataNodes[0].id]
  {
    var p := PolicyAt(d, l);
    var shards := [Shard(d.maxShardID + 1, [d.dataNodes[0].id])];
    g := NewGroup(d, p, t, shards);
    OneShard(d, p, shards);
    hide NewShards, NewGroup;
    assert GroupInserted(p.groups, g, [g]);
    d' := SetGroups(d, l, [g]).(maxShardGroupID := d.maxShardGroupID + 1, maxShardID := d.maxShardID + |shards|);
  }

  lemma OneShard(d: Data, p: Policy, shards: seq<Shard>)
    requires |d.dataNodes| == 1 && shards == [Shard(d.maxShardID + 1, [d.dataNodes[0].id])]
    ensures NewShards(d, p, shards)
  {
    assert ReplicaN(d, p) == 1;
    Euclid(1, 1, 1, 0);
    assert Seat(d.dataNodes, d.index % 1, 1, 0, 0) == d.dataNodes[0].id;
  }

  /**
   Deleting a data node does not take its shards away: from any metadata without
   nodes and groups, three commands end with a shard whose owner does not exist.
   */
  lemma DeletedNodeStillOwns(d: Data, host: string, tcpHost: string, db: string, policy: string, t: int)
    returns (states: seq<Data>, a: Loc)
    requires Blank(d) && FindPolicy(d, db, policy).Some?
    ensures Run(states, [CreateDataNode(host, tcpHost), CreateShardGroup(db, policy, t), DeleteDataNode(1)])
    ensures states[0] == d
    ensures ValidLoc(states[3], a) && ShardAt(states[3], a).owners == [1]
    ensures states[3].dataNodes == [] && !OwnersLive(states[3])
  {
    var l := FindPolicy(d, db, policy).value;
    assert PolicyAt(d, l).groups == [];
    var d1 := FirstNode(d, host, tcpHost);
    var d2, g := SecondStep(d1, db, policy, t, l);
    var d3 := d2.(dataNodes := []);
    DeletesOnly(d2, d3);
    a := Loc(l, 0, 0);
    Orphaned(d3, l, g);
    hide Step, Blank, FindPolicy, OwnersLive;
    states := [d, d1, d2, d3];
  }

  lemma SecondStep(d: Data, db: string, policy: string, t: int, l: Place) returns (d': Data, g: Group)
    requires FindPolicy(d, db, policy) == Some(l) && |d.dataNodes| == 1 && PolicyAt(d, l).groups == []
    ensures Step(d, CreateShardGroup(db, policy, t), d')
    ensures ValidPlace(d', l) && PolicyAt(d', l).groups == [g] && d'.dataNodes == d.dataNodes
    ensures |g.shards| == 1 && g.shards[0].owners == [d.dataNodes[0].id]
  {
    hide GroupCreated, FindPolicy;
    d', g := FirstGroup(d, l, t);
  }

  lemma Orphaned(d: Data, l: Place, g: Group)
    requires ValidPlace(d, l) && PolicyAt(d, l).groups == [g] && |g.shards| == 1
    requires g.shards[0].owners == [1] && d.dataNodes == []
    ensures ValidLoc(d, Loc(l, 0, 0)) && ShardAt(d, Loc(l, 0, 0)).owners == [1] && !OwnersLive(d)
  {
    assert ValidLoc(d, Loc(l, 0, 0)) && 1 in ShardAt(d, Loc(l, 0, 0)).owners;
    assert !HasNode(d.dataNodes, 1);
  }

  lemma DeletesOnly(d: Data, d': Data)
    requires |d.dataNodes| == 1 && d.dataNodes[0].id == 1 && d' == d.(dataNodes := [])
    ensures Step(d, DeleteDataNode(1), d')
  {
    assert Without(d.dataNodes, 1) == Without(d.dataNodes[1..], 1) == [];
  }
}
