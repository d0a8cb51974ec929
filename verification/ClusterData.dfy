/** The cluster metadata as an object that the commands update in place. */
module ClusterObject {
  import opened Options
  import opened Metadata
  import opened Times
  import opened Placement
  import opened ClusterSpec
  import opened Sorting
  import opened ShardProofs

  class ClusterData {
    var databases: seq<Database>
    var metaNodes: seq<NodeInfo>
    var dataNodes: seq<NodeInfo>
    var maxNodeID: nat
    var maxShardGroupID: nat
    var maxShardID: nat
    var index: nat

    function Value(): Data
      reads this
    {
      Data(databases, metaNodes, dataNodes, maxNodeID, maxShardGroupID, maxShardID, index)
    }

    constructor (databases: seq<Database>)
      ensures Value() == Data(databases, [], [], 0, 0, 0, 1)
    {
      this.databases := databases;
      metaNodes, dataNodes := [], [];
      maxNodeID, maxShardGroupID, maxShardID := 0, 0, 0;
      index := 1;
    }

    // ------------------------------------------------------------ nodes

    method DataHostExists(tcpHost: string) returns (found: bool)
      ensures found == HasHost(dataNodes, tcpHost)
    {
      for i := 0 to |dataNodes|
        invariant forall k :: 0 <= k < i ==> dataNodes[k].tcpHost != tcpHost
      {
        if dataNodes[i].tcpHost == tcpHost {
          return true;
        }
      }
      return false;
    }

    method ExistingMetaID(tcpHost: string) returns (id: nat)
      ensures id == IdOfHost(metaNodes, tcpHost)
    {
      for i := 0 to |metaNodes|
        invariant IdOfHost(metaNodes, tcpHost) == IdOfHost(metaNodes[i..], tcpHost)
      {
        assert metaNodes[i..][1..] == metaNodes[i + 1..];
        if metaNodes[i].tcpHost == tcpHost {
          return metaNodes[i].id;
        }
      }
      return 0;
    }

    method CreateMetaNode(host: string, tcpHost: string) returns (out: Outcome)
      modifies this
      ensures out == if HasHost(old(dataNodes), tcpHost) then ErrNodeExists else Done
      ensures Step(old(Value()), Command.CreateMetaNode(host, tcpHost), Value()) && index == old(index)
    {
      hide NodeInserted, HasHost, IdOfHost;
      var taken := DataHostExists(tcpHost);
      if taken {
        return ErrNodeExists;
      }
      var existingID := ExistingMetaID(tcpHost);
      if existingID == 0 {
        maxNodeID := maxNodeID + 1;
        existingID := maxNodeID;
      }
      metaNodes := InsertNode(metaNodes, NodeInfo(existingID, host, tcpHost));
      return Done;
    }

    method CreateDataNode(host: string, tcpHost: string) returns (out: Outcome)
      modifies this
      ensures out == if HasHost(old(dataNodes), tcpHost) then ErrNodeExists else Done
      ensures Step(old(Value()), Command.CreateDataNode(host, tcpHost), Value()) && index == old(index)
    {
      hide NodeInserted, HasHost, IdOfHost;
      var taken := DataHostExists(tcpHost);
      if taken {
        return ErrNodeExists;
      }
      var existingID := ExistingMetaID(tcpHost);
      if existingID == 0 {
        maxNodeID := maxNodeID + 1;
        existingID := maxNodeID;
      }
      dataNodes := InsertNode(dataNodes, NodeInfo(existingID, host, tcpHost));
      return Done;
    }

    method DeleteDataNode(id: nat) returns (out: Outcome)
      modifies this
      ensures out == if |Without(old(dataNodes), id)| == |old(dataNodes)| then ErrNodeNotFound else Done
      ensures Step(old(Value()), Command.DeleteDataNode(id), Value()) && index == old(index)
    {
      var nodes := KeepOthers(dataNodes, id);
      if |nodes| == |dataNodes| {
        return ErrNodeNotFound;
      }
      dataNodes := nodes;
      return Done;
    }

    /** The node leaves the list of meta nodes and gives up its shards. */
    method DeleteMetaNode(id: nat, now: int) returns (out: Outcome)
      modifies this
      ensures out == if |Without(old(metaNodes), id)| == |old(metaNodes)| then ErrNodeNotFound else Done
      ensures Step(old(Value()), Command.DeleteMetaNode(id, now), Value()) && index == old(index)
    {
      var nodes := KeepOthers(metaNodes, id);
      if |nodes| == |metaNodes| {
        return ErrNodeNotFound;
      }
      metaNodes := nodes;
      for di := 0 to |databases|
        invariant Value() == old(Value()).(metaNodes := nodes, databases := databases)
        invariant |databases| == |old(databases)|
        invariant forall k :: 0 <= k < di ==> databases[k] == RelinquishDatabase(old(databases)[k], id, now)
        invariant forall k :: di <= k < |databases| ==> databases[k] == old(databases)[k]
      {
        var policies := RelinquishPolicies(databases[di].policies, id, now);
        assert policies == RelinquishDatabase(old(databases)[di], id, now).policies;
        databases := databases[di := databases[di].(policies := policies)];
      }
      assert databases == RelinquishAll(old(databases), id, now);
      return Done;
    }

    // ------------------------------------------------------------ shard groups

    method RetentionPolicy(db: string, policy: string) returns (r: Option<Place>, out: Outcome)
      ensures r == FindPolicy(Value(), db, policy)
      ensures out == if DbIndex(databases, db) == |databases| then ErrDatabaseNotFound
                     else if r.None? then ErrPolicyNotFound else Done
    {
      var i := FindDatabase(databases, db);
      if i == |databases| {
        return None, ErrDatabaseNotFound;
      }
      var j := FindIn(databases[i].policies, policy);
      if j == |databases[i].policies| {
        return None, ErrPolicyNotFound;
      }
      return Some(Place(i, j)), Done;
    }

    method CreateShardGroup(db: string, policy: string, t: int) returns (out: Outcome)
      modifies this
      ensures Step(old(Value()), Command.CreateShardGroup(db, policy, t), Value()) && index == old(index)
      ensures out == if old(dataNodes) == [] then Done
                     else if DbIndex(old(databases), db) == |old(databases)| then ErrDatabaseNotFound
                     else if FindPolicy(old(Value()), db, policy).None? then ErrPolicyNotFound
                     else Done
    {
      if |dataNodes| == 0 {
        return Done;
      }
      var place, err := RetentionPolicy(db, policy);
      if place.None? {
        return err;
      }
      var l := place.value;
      var rp := databases[l.i].policies[l.j];
      if GroupAt(rp.groups, t).Some? {
        return Done;
      }
      AddGroup(l, t);
      return Done;
    }

    /** Makes the group for the window of t and stores it with the policy. */
    method AddGroup(l: Place, t: int)
      requires ValidPlace(Value(), l) && dataNodes != []
      modifies this
      ensures GroupCreated(old(Value()), l, t, Value()) && index == old(index)
    {
      ghost var d := Value();
      var p := databases[l.i].policies[l.j];
      maxShardGroupID := maxShardGroupID + 1;
      var start := Truncate(t, p.duration);
      var shards, max := MakeShards(dataNodes, p.replicaN, index, maxShardID);
      maxShardID := max;
      var g := Group(maxShardGroupID, start, start + p.duration, None, shards);
      var groups := AppendSorted(p.groups, g);
      databases := databases[l.i := databases[l.i].(policies := databases[l.i].policies[l.j := p.(groups := groups)])];
      assert NewShards(d, p, shards);
      hide NewShards, GroupInserted, Truncate;
      assert g == NewGroup(d, p, t, shards);
      assert Value() == SetGroups(d, l, groups).(maxShardGroupID := d.maxShardGroupID + 1,
                                                 maxShardID := d.maxShardID + |shards|,
                                                 index := Value().index);
    }

    /** Marks the group with that id as deleted, if there is one; what the library does with this command. */
    method DeleteShardGroup(db: string, policy: string, gid: nat, now: int)
      modifies this
      ensures Step(old(Value()), Command.DeleteShardGroup(db, policy, gid, now), Value()) && index == old(index)
    {
      var place, err := RetentionPolicy(db, policy);
      if place.None? {
        return;
      }
      var l := place.value;
      var p := databases[l.i].policies[l.j];
      var groups := MarkFirst(p.groups, gid, now);
      databases := databases[l.i := databases[l.i].(policies := databases[l.i].policies[l.j := p.(groups := groups)])];
      assert Value() == SetGroups(old(Value()), l, groups);
    }

    /** Applies one command of the log. */
    method Execute(c: Command)
      modifies this
      ensures Step(old(Value()), c, Value()) && index == old(index)
    {
      hide Step;
      match c {
        case CreateMetaNode(host, tcpHost) => var out := CreateMetaNode(host, tcpHost);
        case CreateDataNode(host, tcpHost) => var out := CreateDataNode(host, tcpHost);
        case DeleteMetaNode(id, now) => var out := DeleteMetaNode(id, now);
        case DeleteDataNode(id) => var out := DeleteDataNode(id);
        case CreateShardGroup(db, policy, t) => var out := CreateShardGroup(db, policy, t);
        case DeleteShardGroup(db, policy, gid, now) => DeleteShardGroup(db, policy, gid, now);
      }
    }

    /** Applies a sequence of commands. */
    method ExecuteAll(cs: seq<Command>) returns (states: seq<Data>)
      modifies this
      ensures Run(states, cs) && states[0] == old(Value()) && states[|cs|] == Value()
    {
      hide Step;
      states := [Value()];
      for i := 0 to |cs|
        invariant Run(states, cs[..i]) && states[0] == old(Value()) && states[i] == Value()
      {
        Execute(cs[i]);
        states := states + [Value()];
      }
      assert cs[..|cs|] == cs;
    }

    /** The first shard with that id, or none when there is no such shard. */
    method ShardLocation(shardID: nat) returns (r: Option<Shard>)
      ensures r.Some? ==> r.value.id == shardID
      ensures r.Some? ==> exists a: Loc :: ValidLoc(Value(), a) && ShardAt(Value(), a) == r.value
      ensures r.None? ==> forall a: Loc :: ValidLoc(Value(), a) ==> ShardAt(Value(), a).id != shardID
    {
      ghost var d := Value();
      for i := 0 to |databases|
        invariant forall a: Loc :: ValidLoc(d, a) && a.l.i < i ==> ShardAt(d, a).id != shardID
      {
        var policies := databases[i].policies;
        for j := 0 to |policies|
          invariant forall a: Loc :: ValidLoc(d, a) && a.l.i == i && a.l.j < j ==> ShardAt(d, a).id != shardID
        {
          var groups := policies[j].groups;
          for k := 0 to |groups|
            invariant forall a: Loc :: ValidLoc(d, a) && a.l == Place(i, j) && a.k < k ==> ShardAt(d, a).id != shardID
          {
            var shards := groups[k].shards;
            for s := 0 to |shards|
              invariant forall a: Loc :: ValidLoc(d, a) && a.l == Place(i, j) && a.k == k && a.s < s ==>
                  ShardAt(d, a).id != shardID
            {
              if shards[s].id == shardID {
                assert ValidLoc(d, Loc(Place(i, j), k, s)) && ShardAt(d, Loc(Place(i, j), k, s)) == shards[s];
                return Some(shards[s]);
              }
            }
          }
        }
      }
      return None;
    }
  }

  /** The shards of a new group: as many as the replication factor allows, dealt out to the data nodes. */
  method MakeShards(
    nodes: seq<NodeInfo>, policyReplicaN: nat, index: nat, maxShardID: nat)
    returns (shards: seq<Shard>, max: nat)
    requires nodes != []
    ensures max == maxShardID + |shards|
    ensures forall i :: 0 <= i < |shards| ==> shards[i].id == maxShardID + 1 + i
    ensures Replicated(shards, nodes, policyReplicaN) && RoundRobin(shards, nodes, index % |nodes|)
    ensures var replicaN := Clamp(policyReplicaN, |nodes|);
            |shards| == |nodes| / replicaN && Placed(shards, nodes, index % |nodes|, replicaN)
  {
    var replicaN := policyReplicaN;
    if replicaN == 0 {
      replicaN := 1;
    } else if replicaN > |nodes| {
      replicaN := |nodes|;
    }
    var shardN := |nodes| / replicaN;
    shards, max := GenerateShards(shardN, maxShardID);
    shards := AssignOwners(shards, nodes, index, replicaN);
    PlacedReplicas(shards, nodes, index % |nodes|, policyReplicaN);
    PlacedInTurn(shards, nodes, index % |nodes|, replicaN);
  }

  method InsertNode(ns: seq<NodeInfo>, n: NodeInfo) returns (r: seq<NodeInfo>)
    ensures NodeInserted(ns, n, r)
  {
    r := Sort(ns + [n], (x: NodeInfo) => x.id);
  }

  method AppendSorted(groups: seq<Group>, g: Group) returns (r: seq<Group>)
    ensures GroupInserted(groups, g, r)
  {
    r := Sort(groups + [g], (x: Group) => x.start);
  }

  lemma {:induction false} MarkAt(groups: seq<Group>, id: nat, now: int, k: nat)
    requires k <= |groups| && forall i :: 0 <= i < k ==> groups[i].id != id
    requires k < |groups| ==> groups[k].id == id
    ensures MarkDeleted(groups, id, now)
         == if k == |groups| then groups else groups[k := groups[k].(deletedAt := Some(now))]
  {
    if k == 0 {
      if groups != [] {
        var g := groups[0].(deletedAt := Some(now));
        assert [g] + groups[1..] == groups[0 := g];
      }
    } else {
      MarkAt(groups[1..], id, now, k - 1);
      assert MarkDeleted(groups, id, now) == [groups[0]] + MarkDeleted(groups[1..], id, now);
      hide MarkDeleted;
      assert groups == [groups[0]] + groups[1..];
    }
  }

  method MarkFirst(groups: seq<Group>, id: nat, now: int) returns (r: seq<Group>)
    ensures r == MarkDeleted(groups, id, now)
  {
    hide MarkDeleted;
    for i := 0 to |groups|
      invariant forall k :: 0 <= k < i ==> groups[k].id != id
    {
      if groups[i].id == id {
        MarkAt(groups, id, now, i);
        return groups[i := groups[i].(deletedAt := Some(now))];
      }
    }
    MarkAt(groups, id, now, |groups|);
    return groups;
  }

  lemma {:induction false} WithoutSnoc(ns: seq<NodeInfo>, n: NodeInfo, id: nat)
    ensures Without(ns + [n], id) == Without(ns, id) + (if n.id != id then [n] else [])
  {
    if ns == [] {
      assert ns + [n] == [n] && [n][1..] == [];
    } else {
      assert (ns + [n])[1..] == ns[1..] + [n];
      WithoutSnoc(ns[1..], n, id);
    }
  }

  method KeepOthers(ns: seq<NodeInfo>, id: nat) returns (r: seq<NodeInfo>)
    ensures r == Without(ns, id)
  {
    hide Without;
    r := [];
    assert Without(ns[..0], id) == [] by { NoneLeft(ns[..0], id); }
    for i := 0 to |ns|
      invariant r == Without(ns[..i], id)
    {
      WithoutSnoc(ns[..i], ns[i], id);
      assert ns[..i + 1] == ns[..i] + [ns[i]];
      if ns[i].id != id {
        r := r + [ns[i]];
      }
    }
    assert ns[..|ns|] == ns;
  }

  lemma NoneLeft(ns: seq<NodeInfo>, id: nat)
    requires ns == []
    ensures Without(ns, id) == []
  {
  }

  method FindDatabase(dbs: seq<Database>, name: string) returns (i: nat)
    ensures i == DbIndex(dbs, name)
  {
    for k := 0 to |dbs|
      invariant DbIndex(dbs, name) == k + DbIndex(dbs[k..], name)
    {
      assert dbs[k..][1..] == dbs[k + 1..];
      if dbs[k].name == name {
        return k;
      }
    }
    return |dbs|;
  }

  method FindIn(ps: seq<Policy>, name: string) returns (j: nat)
    ensures j == PolicyIndex(ps, name)
  {
    for k := 0 to |ps|
      invariant PolicyIndex(ps, name) == k + PolicyIndex(ps[k..], name)
    {
      assert ps[k..][1..] == ps[k + 1..];
      if ps[k].name == name {
        return k;
      }
    }
    return |ps|;
  }

  /** The owners of one shard without the node, and whether none is left. */
  method RelinquishOne(s: Shard, id: nat) returns (r: Shard)
    ensures r == Relinquish(s, id)
  {
    var nodeIdx := -1;
    for i := 0 to |s.owners|
      invariant nodeIdx == LastIndex(s.owners[..i], id)
    {
      assert s.owners[..i + 1][..i] == s.owners[..i];
      if s.owners[i] == id {
        nodeIdx := i;
      }
    }
    assert s.owners[..|s.owners|] == s.owners;
    r := s;
    if nodeIdx > -1 {
      r := s.(owners := s.owners[..nodeIdx] + s.owners[nodeIdx + 1..]);
    }
  }

  method RelinquishPolicies(policies: seq<Policy>, id: nat, now: int) returns (r: seq<Policy>)
    ensures |r| == |policies| && forall k :: 0 <= k < |r| ==> r[k] == RelinquishPolicy(policies[k], id, now)
  {
    r := policies;
    for ri := 0 to |policies|
      invariant |r| == |policies|
      invariant forall k :: 0 <= k < ri ==> r[k] == RelinquishPolicy(policies[k], id, now)
      invariant forall k :: ri <= k < |r| ==> r[k] == policies[k]
    {
      var groups := RelinquishGroups(r[ri].groups, id, now);
      assert groups == RelinquishPolicy(policies[ri], id, now).groups;
      r := r[ri := r[ri].(groups := groups)];
    }
  }

  /** Takes the node out of every shard of the groups and marks the groups left without owners as deleted. */
  method RelinquishGroups(groups: seq<Group>, id: nat, now: int) returns (r: seq<Group>)
    ensures |r| == |groups| && forall k :: 0 <= k < |r| ==> r[k] == RelinquishGroup(groups[k], id, now)
  {
    r := groups;
    for sgi := 0 to |groups|
      invariant |r| == |groups|
      invariant forall k :: 0 <= k < sgi ==> r[k] == RelinquishGroup(groups[k], id, now)
      invariant forall k :: sgi <= k < |r| ==> r[k] == groups[k]
    {
      var shards := r[sgi].shards;
      var orphaned := 0;
      for si := 0 to |shards|
        invariant |shards| == |groups[sgi].shards| && 0 <= orphaned <= si
        invariant forall k :: 0 <= k < si ==> shards[k] == Relinquish(groups[sgi].shards[k], id)
        invariant forall k :: si <= k < |shards| ==> shards[k] == groups[sgi].shards[k]
        invariant orphaned == si <==> forall k :: 0 <= k < si ==> shards[k].owners == []
      {
        var s := RelinquishOne(shards[si], id);
        shards := shards[si := s];
        if |s.owners| == 0 {
          orphaned := orphaned + 1;
        }
      }
      assert shards == RelinquishShards(groups[sgi].shards, id);
      r := r[sgi := r[sgi].(shards := shards)];
      if |shards| == 0 || orphaned == |shards| {
        r := r[sgi := r[sgi].(deletedAt := Some(now))];
      }
    }
  }
}
