/** Shards over whole runs: identity, creation on demand, and where points are routed. */
module ShardProofs {
  import opened Options
  import opened Metadata
  import opened Placement
  import opened ClusterSpec
  import opened NodeProofs
  import opened GroupProofs

  // ---------------------------------------------------------------- one id, one shard

  /** The place of a shard: its policy, its group and its number in the group. */
  datatype Loc = Loc(l: Place, k: nat, s: nat)

  predicate ValidLoc(d: Data, a: Loc) {
    && ValidPlace(d, a.l)
    && a.k < |PolicyAt(d, a.l).groups|
    && a.s < |PolicyAt(d, a.l).groups[a.k].shards|
  }

  function ShardAt(d: Data, a: Loc): Shard
    requires ValidLoc(d, a)
  {
    PolicyAt(d, a.l).groups[a.k].shards[a.s]
  }

  ghost predicate UniqueShards(d: Data) {
    forall a: Loc, b: Loc :: ValidLoc(d, a) && ValidLoc(d, b) && ShardAt(d, a).id == ShardAt(d, b).id ==> a == b
  }

  /** Where a shard was before a group was added; None when it belongs to the new group. */
  lemma OldLoc(
    d: Data, l: Place, t: int, d': Data, shards: seq<Shard>, groups: seq<Group>, a: Loc)
    returns (r: Option<Loc>)
    requires ValidPlace(d, l) && ValidPlace(d', l) && ValidLoc(d', a)
    requires forall k: Place :: ValidPlace(d', k) <==> ValidPlace(d, k)
    requires forall k: Place :: ValidPlace(d, k) && k != l ==> PolicyAt(d', k) == PolicyAt(d, k)
    requires PolicyAt(d', l) == PolicyAt(d, l).(groups := groups)
    requires GroupInserted(PolicyAt(d, l).groups, NewGroup(d, PolicyAt(d, l), t, shards), groups)
    ensures r.Some? ==>
              && ValidLoc(d, r.value) && ShardAt(d, r.value) == ShardAt(d', a)
              && r.value.l == a.l && r.value.s == a.s
              && PolicyAt(d', a.l).groups[a.k] == PolicyAt(d, a.l).groups[r.value.k]
              && (a.l != l ==> r.value == a)
    ensures r.None? ==> a.l == l && PolicyAt(d', l).groups[a.k] == NewGroup(d, PolicyAt(d, l), t, shards)
  {
    hide GroupInserted;
    if a.l != l {
      r := Some(a);
    } else {
      var i := InsertedGroupFrom(PolicyAt(d, l).groups, NewGroup(d, PolicyAt(d, l), t, shards), groups, a.k);
      r := if i == -1 then None else Some(Loc(l, i, a.s));
    }
  }

  /** An old shard's id is within the old maximum. */
  lemma OldShardId(d: Data, a: Loc)
    requires PoliciesOk(d) && ValidLoc(d, a)
    ensures 1 <= ShardAt(d, a).id <= d.maxShardID
  {
    assert PolicyOk(d, a.l);
    assert GroupOk(PolicyAt(d, a.l).groups[a.k], PolicyAt(d, a.l).duration, d.maxShardGroupID, d.maxShardID);
  }

  /** Groups at different positions are different groups. */
  lemma SamePosition(d: Data, l: Place, k: nat, k': nat)
    requires PoliciesOk(d) && ValidPlace(d, l) && k < |PolicyAt(d, l).groups| && k' < |PolicyAt(d, l).groups|
    requires PolicyAt(d, l).groups[k].id == PolicyAt(d, l).groups[k'].id
    ensures k == k'
  {
    assert PolicyOk(d, l);
  }

  lemma SameShardNumber(d: Data, a: Loc, b: Loc)
    requires PoliciesOk(d) && ValidLoc(d, a) && ValidLoc(d, b) && a.l == b.l && a.k == b.k
    requires ShardAt(d, a).id == ShardAt(d, b).id
    ensures a == b
  {
    assert PolicyOk(d, a.l);
    assert GroupOk(PolicyAt(d, a.l).groups[a.k], PolicyAt(d, a.l).duration, d.maxShardGroupID, d.maxShardID);
  }

  lemma CreateKeepsUnique(d: Data, l: Place, t: int, d': Data)
    requires PoliciesOk(d) && PoliciesOk(d') && UniqueShards(d) && DistinctNodeIds(d.dataNodes)
    requires ValidPlace(d, l) && d.dataNodes != [] && GroupCreated(d, l, t, d')
    ensures UniqueShards(d')
  {
    hide PoliciesOk, GroupInserted, NewShards, GroupCreated, DistinctNodeIds;
    var shards, groups := CreatedParts(d, l, t, d');
    NewShardsOk(d, PolicyAt(d, l), shards);
    forall a: Loc, b: Loc | ValidLoc(d', a) && ValidLoc(d', b) && ShardAt(d', a).id == ShardAt(d', b).id
      ensures a == b
    {
      var x := OldLoc(d, l, t, d', shards, groups, a);
      var y := OldLoc(d, l, t, d', shards, groups, b);
      if x.Some? {
        OldShardId(d, x.value);
      }
      if y.Some? {
        OldShardId(d, y.value);
      }
      assert x.Some? <==> y.Some?;
      assert a.l == b.l;
      SamePosition(d', a.l, a.k, b.k);
      SameShardNumber(d', a, b);
    }
  }

  /** Commands that change groups only in place keep every shard where it is. */
  lemma InPlaceKeepsUnique(d: Data, d': Data)
    requires UniqueShards(d)
    requires forall a: Loc :: ValidLoc(d', a) ==> ValidLoc(d, a) && ShardAt(d', a).id == ShardAt(d, a).id
    ensures UniqueShards(d')
  {
    forall a: Loc, b: Loc | ValidLoc(d', a) && ValidLoc(d', b) && ShardAt(d', a).id == ShardAt(d', b).id
      ensures a == b
    {
      assert ValidLoc(d, a) && ValidLoc(d, b);
    }
  }

  lemma RelinquishInPlace(d: Data, id: nat, now: int, d': Data, a: Loc)
    requires d'.databases == RelinquishAll(d.databases, id, now) && ValidLoc(d', a)
    ensures ValidLoc(d, a) && ShardAt(d', a).id == ShardAt(d, a).id
  {
    assert ValidPlace(d, a.l);
    assert PolicyAt(d', a.l) == RelinquishPolicy(PolicyAt(d, a.l), id, now);
    assert PolicyAt(d', a.l).groups[a.k] == RelinquishGroup(PolicyAt(d, a.l).groups[a.k], id, now);
  }

  lemma MarkInPlace(d: Data, l: Place, gid: nat, now: int, d': Data, a: Loc)
    requires ValidPlace(d, l) && ValidLoc(d', a)
    requires d' == SetGroups(d, l, MarkDeleted(PolicyAt(d, l).groups, gid, now)).(index := d'.index)
    ensures ValidLoc(d, a) && ShardAt(d', a).id == ShardAt(d, a).id
  {
    hide SetGroups;
    assert ValidPlace(SetGroups(d, l, MarkDeleted(PolicyAt(d, l).groups, gid, now)), a.l);
  }

  lemma RelinquishKeepsUnique(d: Data, id: nat, now: int, d': Data)
    requires UniqueShards(d) && d'.databases == RelinquishAll(d.databases, id, now)
    ensures UniqueShards(d')
  {
    hide UniqueShards, RelinquishAll;
    forall a: Loc | ValidLoc(d', a)
      ensures ValidLoc(d, a) && ShardAt(d', a).id == ShardAt(d, a).id
    {
      RelinquishInPlace(d, id, now, d', a);
    }
    InPlaceKeepsUnique(d, d');
  }

  lemma MarkKeepsUnique(d: Data, l: Place, gid: nat, now: int, d': Data)
    requires UniqueShards(d) && ValidPlace(d, l)
    requires d' == SetGroups(d, l, MarkDeleted(PolicyAt(d, l).groups, gid, now)).(index := d'.index)
    ensures UniqueShards(d')
  {
    hide UniqueShards, SetGroups;
    forall a: Loc | ValidLoc(d', a)
      ensures ValidLoc(d, a) && ShardAt(d', a).id == ShardAt(d, a).id
    {
      MarkInPlace(d, l, gid, now, d', a);
    }
    InPlaceKeepsUnique(d, d');
  }

  lemma StepKeepsUnique(d: Data, c: Command, d': Data)
    requires PoliciesOk(d) && UniqueShards(d) && DistinctNodeIds(d.dataNodes) && Step(d, c, d')
    ensures PoliciesOk(d') && UniqueShards(d')
  {
    StepKeepsPolicies(d, c, d');
    hide PoliciesOk, UniqueShards, GroupCreated, SetGroups, RelinquishAll, NodeInserted, DistinctNodeIds, FindPolicy;
    match c
    case DeleteMetaNode(id, now) =>
      if |Without(d.metaNodes, id)| == |d.metaNodes| {
        InPlaceKeepsUnique(d, d');
      } else {
        RelinquishKeepsUnique(d, id, now, d');
      }
    case CreateShardGroup(db, policy, t) =>
      var l := FindPolicy(d, db, policy);
      if d.dataNodes == [] || l.None? || GroupAt(PolicyAt(d, l.value).groups, t).Some? {
        InPlaceKeepsUnique(d, d');
      } else {
        CreateKeepsUnique(d, l.value, t, d');
      }
    case DeleteShardGroup(db, policy, gid, now) =>
      var l := FindPolicy(d, db, policy);
      if l.None? {
        InPlaceKeepsUnique(d, d');
      } else {
        MarkKeepsUnique(d, l.value, gid, now, d');
      }
    case CreateMetaNode(_, _) => InPlaceKeepsUnique(d, d');
    case CreateDataNode(_, _) => InPlaceKeepsUnique(d, d');
    case DeleteDataNode(_) => InPlaceKeepsUnique(d, d');
  }

  // ---------------------------------------------------------------- whole runs

  ghost predicate ClusterInv(d: Data, given: map<nat, string>) {
    NodesInv(d, given) && PoliciesOk(d) && UniqueShards(d)
  }

  /** Metadata with databases and policies, but without nodes and shard groups. */
  ghost predicate Blank(d: Data) {
    && NoNodes(d)
    && forall l: Place :: ValidPlace(d, l) ==> PolicyAt(d, l).duration > 0 && PolicyAt(d, l).groups == []
  }

  lemma BlankInv(d: Data)
    requires Blank(d)
    ensures ClusterInv(d, map[])
  {
    forall l: Place | ValidPlace(d, l)
      ensures PolicyOk(d, l)
    {
      assert PolicyAt(d, l).groups == [];
    }
  }

  lemma DataNodesDistinct(d: Data, given: map<nat, string>)
    requires NodesInv(d, given)
    ensures DistinctNodeIds(d.dataNodes)
  {
  }

  lemma {:induction false} RunFrom(states: seq<Data>, commands: seq<Command>, i: nat, j: nat, given: map<nat, string>)
    returns (given': map<nat, string>)
    requires Run(states, commands) && i <= j < |states| && ClusterInv(states[i], given)
    ensures ClusterInv(states[j], given')
    decreases j - i
  {
    hide Step, NodesInv, PoliciesOk, UniqueShards, DistinctNodeIds;
    if i == j {
      given' := given;
    } else {
      DataNodesDistinct(states[i], given);
      StepKeepsUnique(states[i], commands[i], states[i + 1]);
      var g := StepNodes(states[i], commands[i], states[i + 1], given);
      given' := RunFrom(states, commands, i + 1, j, g);
    }
  }

  /** In every state of every run from blank metadata, the invariants of nodes, groups and shards hold. */
  lemma RunKeepsInv(states: seq<Data>, commands: seq<Command>, j: nat) returns (given: map<nat, string>)
    requires Run(states, commands) && Blank(states[0]) && j < |states|
    ensures ClusterInv(states[j], given)
  {
    BlankInv(states[0]);
    given := RunFrom(states, commands, 0, j, map[]);
  }

  /** The metadata satisfies the invariants of every state of a run. */
  ghost predicate Ready(d: Data) {
    exists given: map<nat, string> :: ClusterInv(d, given)
  }

  lemma BlankIsReady(d: Data)
    requires Blank(d)
    ensures Ready(d)
  {
    BlankInv(d);
  }

  lemma RunReady(states: seq<Data>, commands: seq<Command>, i: nat, j: nat)
    requires Run(states, commands) && i <= j < |states| && Ready(states[i])
    ensures Ready(states[j])
  {
    hide Step, ClusterInv;
    var given: map<nat, string> :| ClusterInv(states[i], given);
    var given' := RunFrom(states, commands, i, j, given);
  }

  lemma ReadyParts(d: Data)
    requires Ready(d)
    ensures PoliciesOk(d) && UniqueShards(d) && DistinctNodeIds(d.dataNodes)
  {
    var given: map<nat, string> :| ClusterInv(d, given);
    DataNodesDistinct(d, given);
  }
}
