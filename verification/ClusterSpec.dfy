/**
 The commands on the cluster metadata as relations between the data before and
 the data after.  Only sorting leaves a choice: the order of entries with equal
 keys.  The index is set by whoever applies the command and is left free.
 */
module ClusterSpec {
  import opened Options
  import opened Metadata
  import opened Times
  import opened Placement

  // ---------------------------------------------------------------- nodes

  ghost predicate SortedById(ns: seq<NodeInfo>) {
    forall i, j :: 0 <= i < j < |ns| ==> ns[i].id <= ns[j].id
  }

  /** n was put into the list and the list was sorted. */
  ghost predicate NodeInserted(ns: seq<NodeInfo>, n: NodeInfo, ns': seq<NodeInfo>) {
    multiset(ns') == multiset(ns) + multiset{n} && SortedById(ns')
  }

  predicate HasHost(ns: seq<NodeInfo>, tcpHost: string) {
    exists i :: 0 <= i < |ns| && ns[i].tcpHost == tcpHost
  }

  /** The id of the first node with that address, or 0. */
  function IdOfHost(ns: seq<NodeInfo>, tcpHost: string): nat {
    if ns == [] then 0 else if ns[0].tcpHost == tcpHost then ns[0].id else IdOfHost(ns[1..], tcpHost)
  }

  function NewId(d: Data, tcpHost: string): nat {
    if IdOfHost(d.metaNodes, tcpHost) == 0 then d.maxNodeID + 1 else IdOfHost(d.metaNodes, tcpHost)
  }

  function NewMax(d: Data, tcpHost: string): nat {
    if IdOfHost(d.metaNodes, tcpHost) == 0 then d.maxNodeID + 1 else d.maxNodeID
  }

  function Without(ns: seq<NodeInfo>, id: nat): (r: seq<NodeInfo>)
    ensures |r| <= |ns|
    ensures forall n :: n in r <==> n in ns && n.id != id
  {
    if ns == [] then []
    else if ns[0].id != id then [ns[0]] + Without(ns[1..], id)
    else Without(ns[1..], id)
  }

  // ---------------------------------------------------------------- shard owners

  /** The last position of id in the list, or -1. */
  function LastIndex(owners: seq<nat>, id: nat): (k: int)
    ensures -1 <= k < |owners|
    ensures k >= 0 ==> owners[k] == id
    ensures forall i :: k < i < |owners| ==> owners[i] != id
  {
    if owners == [] then -1
    else if owners[|owners| - 1] == id then |owners| - 1
    else LastIndex(owners[..|owners| - 1], id)
  }

  /** The node gives up one entry in the list of owners. */
  function Relinquish(s: Shard, id: nat): Shard {
    var k := LastIndex(s.owners, id);
    if k < 0 then s else s.(owners := s.owners[..k] + s.owners[k + 1..])
  }

  function RelinquishShards(shards: seq<Shard>, id: nat): (r: seq<Shard>)
    ensures |r| == |shards| && forall i :: 0 <= i < |r| ==> r[i] == Relinquish(shards[i], id)
  {
    seq(|shards|, i requires 0 <= i < |shards| => Relinquish(shards[i], id))
  }

  predicate Ownerless(shards: seq<Shard>) {
    forall i :: 0 <= i < |shards| ==> shards[i].owners == []
  }

  /** A group is marked deleted when none of its shards has an owner left. */
  function RelinquishGroup(g: Group, id: nat, now: int): Group {
    var shards := RelinquishShards(g.shards, id);
    if Ownerless(shards) then g.(shards := shards, deletedAt := Some(now)) else g.(shards := shards)
  }

  function RelinquishPolicy(p: Policy, id: nat, now: int): (r: Policy)
    ensures r == p.(groups := r.groups) && |r.groups| == |p.groups|
    ensures forall i :: 0 <= i < |r.groups| ==> r.groups[i] == RelinquishGroup(p.groups[i], id, now)
  {
    p.(groups := seq(|p.groups|, i requires 0 <= i < |p.groups| => RelinquishGroup(p.groups[i], id, now)))
  }

  function RelinquishDatabase(db: Database, id: nat, now: int): (r: Database)
    ensures r == db.(policies := r.policies) && |r.policies| == |db.policies|
    ensures forall i :: 0 <= i < |r.policies| ==> r.policies[i] == RelinquishPolicy(db.policies[i], id, now)
  {
    db.(policies := seq(|db.policies|, i requires 0 <= i < |db.policies| => RelinquishPolicy(db.policies[i], id, now)))
  }

  function RelinquishAll(dbs: seq<Database>, id: nat, now: int): (r: seq<Database>)
    ensures |r| == |dbs| && forall i :: 0 <= i < |r| ==> r[i] == RelinquishDatabase(dbs[i], id, now)
  {
    seq(|dbs|, i requires 0 <= i < |dbs| => RelinquishDatabase(dbs[i], id, now))
  }

  // ---------------------------------------------------------------- shard groups

  ghost predicate SortedByStart(groups: seq<Group>) {
    forall i, j :: 0 <= i < j < |groups| ==> groups[i].start <= groups[j].start
  }

  ghost predicate GroupInserted(groups: seq<Group>, g: Group, groups': seq<Group>) {
    multiset(groups') == multiset(groups) + multiset{g} && SortedByStart(groups')
  }

  function DbIndex(dbs: seq<Database>, name: string): (i: nat)
    ensures i <= |dbs|
    ensures i < |dbs| ==> dbs[i].name == name
    ensures forall k :: 0 <= k < i ==> dbs[k].name != name
  {
    if dbs == [] then 0 else if dbs[0].name == name then 0 else 1 + DbIndex(dbs[1..], name)
  }

  function PolicyIndex(ps: seq<Policy>, name: string): (j: nat)
    ensures j <= |ps|
    ensures j < |ps| ==> ps[j].name == name
    ensures forall k :: 0 <= k < j ==> ps[k].name != name
  {
    if ps == [] then 0 else if ps[0].name == name then 0 else 1 + PolicyIndex(ps[1..], name)
  }

  /** Where a retention policy is stored. */
  datatype Place = Place(i: nat, j: nat)

  predicate ValidPlace(d: Data, l: Place) {
    l.i < |d.databases| && l.j < |d.databases[l.i].policies|
  }

  function PolicyAt(d: Data, l: Place): Policy
    requires ValidPlace(d, l)
  {
    d.databases[l.i].policies[l.j]
  }

  function FindPolicy(d: Data, db: string, policy: string): (r: Option<Place>)
    ensures r.Some? ==> ValidPlace(d, r.value)
  {
    var i := DbIndex(d.databases, db);
    if i == |d.databases| then None
    else
      var j := PolicyIndex(d.databases[i].policies, policy);
      if j == |d.databases[i].policies| then None else Some(Place(i, j))
  }

  function SetGroups(d: Data, l: Place, groups: seq<Group>): (r: Data)
    requires ValidPlace(d, l)
    ensures forall k: Place :: ValidPlace(r, k) <==> ValidPlace(d, k)
    ensures forall k: Place :: ValidPlace(d, k) ==>
              PolicyAt(r, k) == if k == l then PolicyAt(d, k).(groups := groups) else PolicyAt(d, k)
  {
    var db := d.databases[l.i];
    d.(databases := d.databases[l.i := db.(policies := db.policies[l.j := db.policies[l.j].(groups := groups)])])
  }

  function ReplicaN(d: Data, p: Policy): nat
    requires d.dataNodes != []
  {
    Clamp(p.replicaN, |d.dataNodes|)
  }

  function ShardN(d: Data, p: Policy): nat
    requires d.dataNodes != []
  {
    |d.dataNodes| / ReplicaN(d, p)
  }

  /** The shards are those of a new group: fresh ids, owners dealt out round robin. */
  ghost predicate NewShards(d: Data, p: Policy, shards: seq<Shard>)
    requires d.dataNodes != []
  {
    && |shards| == ShardN(d, p)
    && (forall i :: 0 <= i < |shards| ==> shards[i].id == d.maxShardID + 1 + i)
    && Placed(shards, d.dataNodes, d.index % |d.dataNodes|, ReplicaN(d, p))
  }

  function NewGroup(d: Data, p: Policy, t: int, shards: seq<Shard>): Group {
    var start := Truncate(t, p.duration);
    Group(d.maxShardGroupID + 1, start, start + p.duration, None, shards)
  }

  ghost predicate GroupCreated(d: Data, l: Place, t: int, d': Data)
    requires ValidPlace(d, l) && d.dataNodes != []
  {
    var p := PolicyAt(d, l);
    exists shards, groups ::
      && NewShards(d, p, shards)
      && GroupInserted(p.groups, NewGroup(d, p, t, shards), groups)
      && d' == SetGroups(d, l, groups).(maxShardGroupID := d.maxShardGroupID + 1,
                                        maxShardID := d.maxShardID + |shards|,
                                        index := d'.index)
  }

  // ---------------------------------------------------------------- commands

  datatype Command =
    | CreateMetaNode(host: string, tcpHost: string)
    | CreateDataNode(host: string, tcpHost: string)
    | DeleteMetaNode(id: nat, now: int)
    | DeleteDataNode(id: nat)
    | CreateShardGroup(db: string, policy: string, t: int)
    | DeleteShardGroup(db: string, policy: string, gid: nat, now: int)

  function Dated(g: Group, now: int): Group {
    g.(deletedAt := Some(now))
  }

  function MarkDeleted(groups: seq<Group>, id: nat, now: int): (r: seq<Group>)
    ensures |r| == |groups|
    ensures forall i :: 0 <= i < |r| ==> r[i] == groups[i] || (groups[i].id == id && r[i] == Dated(groups[i], now))
  {
    if groups == [] then []
    else if groups[0].id == id then [groups[0].(deletedAt := Some(now))] + groups[1..]
    else [groups[0]] + MarkDeleted(groups[1..], id, now)
  }

  ghost predicate Unchanged(d: Data, d': Data) {
    d' == d.(index := d'.index)
  }

  ghost predicate Step(d: Data, c: Command, d': Data) {
    match c
    case CreateMetaNode(host, tcpHost) =>
      if HasHost(d.dataNodes, tcpHost) then Unchanged(d, d')
      else
        && NodeInserted(d.metaNodes, NodeInfo(NewId(d, tcpHost), host, tcpHost), d'.metaNodes)
        && d' == d.(metaNodes := d'.metaNodes, maxNodeID := NewMax(d, tcpHost), index := d'.index)
    case CreateDataNode(host, tcpHost) =>
      if HasHost(d.dataNodes, tcpHost) then Unchanged(d, d')
      else
        && NodeInserted(d.dataNodes, NodeInfo(NewId(d, tcpHost), host, tcpHost), d'.dataNodes)
        && d' == d.(dataNodes := d'.dataNodes, maxNodeID := NewMax(d, tcpHost), index := d'.index)
    case DeleteMetaNode(id, now) =>
      if |Without(d.metaNodes, id)| == |d.metaNodes| then Unchanged(d, d')
      else d' == d.(metaNodes := Without(d.metaNodes, id),
                    databases := RelinquishAll(d.databases, id, now),
                    index := d'.index)
    case DeleteDataNode(id) =>
      if |Without(d.dataNodes, id)| == |d.dataNodes| then Unchanged(d, d')
      else d' == d.(dataNodes := Without(d.dataNodes, id), index := d'.index)
    case CreateShardGroup(db, policy, t) =>
      var l := FindPolicy(d, db, policy);
      if d.dataNodes == [] || l.None? || GroupAt(PolicyAt(d, l.value).groups, t).Some? then Unchanged(d, d')
      else GroupCreated(d, l.value, t, d')
    case DeleteShardGroup(db, policy, gid, now) =>
      var l := FindPolicy(d, db, policy);
      if l.None? then Unchanged(d, d')
      else d' == SetGroups(d, l.value, MarkDeleted(PolicyAt(d, l.value).groups, gid, now)).(index := d'.index)
  }

  /** A run: each command leads from one state to the next. */
  ghost predicate Run(states: seq<Data>, commands: seq<Command>) {
    && |states| == |commands| + 1
    && forall k :: 0 <= k < |commands| ==> Step(states[k], commands[k], states[k + 1])
  }
}
