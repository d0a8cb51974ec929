/** What every command keeps of the shard groups. */
module GroupProofs {
  import opened Metadata
  import opened Sorting
  import opened Times
  import opened Placement
  import opened ClusterSpec

  // ---------------------------------------------------------------- invariants

  ghost predicate ShardsOk(shards: seq<Shard>, maxShardID: nat) {
    && shards != []
    && (forall i :: 0 <= i < |shards| ==> 1 <= shards[i].id <= maxShardID && NoDuplicates(shards[i].owners))
    && (forall i, j :: 0 <= i < j < |shards| ==> shards[i].id != shards[j].id)
  }

  /** A group covers exactly one window of the policy's duration. */
  ghost predicate Window(g: Group, duration: int) {
    duration > 0 && g.start % duration == 0 && g.end == g.start + duration
  }

  ghost predicate GroupOk(g: Group, duration: int, maxGroupID: nat, maxShardID: nat) {
    Window(g, duration) && g.id <= maxGroupID && ShardsOk(g.shards, maxShardID)
  }

  ghost predicate DistinctGroupIds(groups: seq<Group>) {
    forall i, j :: 0 <= i < j < |groups| ==> groups[i].id != groups[j].id
  }

  /** No two live groups have the same start. */
  ghost predicate LiveApart(groups: seq<Group>) {
    forall i, j :: 0 <= i < j < |groups| && !Deleted(groups[i]) && !Deleted(groups[j]) ==>
      groups[i].start != groups[j].start
  }

  ghost predicate GroupsOk(groups: seq<Group>, duration: int, maxGroupID: nat, maxShardID: nat) {
    && duration > 0
    && SortedByStart(groups)
    && (forall i :: 0 <= i < |groups| ==> GroupOk(groups[i], duration, maxGroupID, maxShardID))
    && DistinctGroupIds(groups)
    && LiveApart(groups)
  }

  ghost predicate PolicyOk(d: Data, l: Place)
    requires ValidPlace(d, l)
  {
    GroupsOk(PolicyAt(d, l).groups, PolicyAt(d, l).duration, d.maxShardGroupID, d.maxShardID)
  }

  ghost predicate PoliciesOk(d: Data) {
    forall l: Place :: ValidPlace(d, l) ==> PolicyOk(d, l)
  }

  // ---------------------------------------------------------------- windows

  /** At most one window of a given duration holds an instant. */
  lemma OneWindow(g: Group, duration: int, t: int)
    requires Window(g, duration)
    ensures Contains(g, t) <==> g.start == Truncate(t, duration)
  {
    if Contains(g, t) {
      TruncateUnique(t, duration, g.start);
    }
  }

  /** Live groups are pairwise disjoint: no instant lies in two of them. */
  lemma LiveDisjoint(groups: seq<Group>, duration: int, maxGroupID: nat, maxShardID: nat, i: nat, j: nat, t: int)
    requires GroupsOk(groups, duration, maxGroupID, maxShardID)
    requires i < |groups| && j < |groups| && !Deleted(groups[i]) && !Deleted(groups[j])
    requires Contains(groups[i], t) && Contains(groups[j], t)
    ensures i == j
  {
    OneWindow(groups[i], duration, t);
    OneWindow(groups[j], duration, t);
  }

  /** Instants of one window are in the same live group, if in any. */
  lemma {:induction false} SameGroupInWindow(groups: seq<Group>, duration: int, t: int, t': int)
    requires forall i :: 0 <= i < |groups| ==> Window(groups[i], duration)
    requires Truncate(t, duration) == Truncate(t', duration)
    ensures GroupAt(groups, t) == GroupAt(groups, t')
  {
    if groups == [] {
    } else {
      OneWindow(groups[0], duration, t);
      OneWindow(groups[0], duration, t');
      SameGroupInWindow(groups[1..], duration, t, t');
    }
  }

  // ---------------------------------------------------------------- inserting a group

  lemma InsertedGroupFrom(groups: seq<Group>, g: Group, groups': seq<Group>, k: nat) returns (i: int)
    requires GroupInserted(groups, g, groups') && k < |groups'|
    ensures i == -1 ==> groups'[k] == g
    ensures i != -1 ==> 0 <= i < |groups| && groups'[k] == groups[i]
  {
    assert groups'[k] in multiset(groups');
    if groups'[k] in groups {
      i :| 0 <= i < |groups| && groups[i] == groups'[k];
    } else {
      assert groups'[k] !in multiset(groups);
      i := -1;
    }
  }

  lemma InsertedGroupTo(groups: seq<Group>, g: Group, groups': seq<Group>, x: Group)
    requires GroupInserted(groups, g, groups') && (x == g || x in groups)
    ensures x in groups'
  {
    assert x in multiset(groups) + multiset{g};
    assert x in multiset(groups');
  }

  lemma {:induction false} OnceById(groups: seq<Group>, x: Group)
    requires DistinctGroupIds(groups)
    ensures multiset(groups)[x] <= 1
  {
    if groups == [] {
    } else {
      assert groups == [groups[0]] + groups[1..];
      OnceById(groups[1..], x);
      if x == groups[0] {
        assert x !in groups[1..];
        assert x !in multiset(groups[1..]);
      }
    }
  }

  lemma InsertedIds(groups: seq<Group>, g: Group, groups': seq<Group>)
    requires GroupInserted(groups, g, groups') && DistinctGroupIds(groups)
    requires forall i :: 0 <= i < |groups| ==> groups[i].id != g.id
    ensures DistinctGroupIds(groups')
  {
    forall i, j | 0 <= i < j < |groups'|
      ensures groups'[i].id != groups'[j].id
    {
      if groups'[i].id == groups'[j].id {
        var a := InsertedGroupFrom(groups, g, groups', i);
        var b := InsertedGroupFrom(groups, g, groups', j);
        Twice(groups', i, j);
        OnceById(groups, groups'[i]);
        NewOnce(groups, g, groups'[i]);
        assert false;
      }
    }
  }

  lemma NewOnce(groups: seq<Group>, g: Group, x: Group)
    requires multiset(groups)[x] <= 1 && forall i :: 0 <= i < |groups| ==> groups[i].id != g.id
    ensures (multiset(groups) + multiset{g})[x] <= 1
  {
    if x == g {
      assert g !in groups;
      assert g !in multiset(groups);
    }
  }

  lemma InsertedLiveApart(groups: seq<Group>, g: Group, groups': seq<Group>)
    requires GroupInserted(groups, g, groups') && LiveApart(groups) && DistinctGroupIds(groups')
    requires forall i :: 0 <= i < |groups| && !Deleted(groups[i]) ==> groups[i].start != g.start
    ensures LiveApart(groups')
  {
    forall i, j | 0 <= i < j < |groups'| && !Deleted(groups'[i]) && !Deleted(groups'[j])
      ensures groups'[i].start != groups'[j].start
    {
      var a := InsertedGroupFrom(groups, g, groups', i);
      var b := InsertedGroupFrom(groups, g, groups', j);
    }
  }

  /** A new group for an instant that no live group holds keeps the groups of a policy in order. */
  lemma InsertKeeps(
    groups: seq<Group>, g: Group, groups': seq<Group>, duration: int, t: int,
    maxGroupID: nat, maxShardID: nat, maxShardID': nat)
    requires GroupsOk(groups, duration, maxGroupID, maxShardID) && GroupAt(groups, t).None?
    requires GroupInserted(groups, g, groups') && !Deleted(g) && maxShardID <= maxShardID'
    requires g.start == Truncate(t, duration)
    requires GroupOk(g, duration, maxGroupID + 1, maxShardID') && g.id == maxGroupID + 1
    ensures GroupsOk(groups', duration, maxGroupID + 1, maxShardID')
  {
    hide SortedByStart, ShardsOk, DistinctGroupIds, LiveApart, Truncate;
    forall i | 0 <= i < |groups|
      ensures groups[i].id != g.id
      ensures !Deleted(groups[i]) ==> groups[i].start != g.start
    {
      OneWindow(groups[i], duration, t);
      assert groups[i] in groups;
    }
    InsertedIds(groups, g, groups');
    InsertedLiveApart(groups, g, groups');
    forall k | 0 <= k < |groups'|
      ensures GroupOk(groups'[k], duration, maxGroupID + 1, maxShardID')
    {
      var i := InsertedGroupFrom(groups, g, groups', k);
      if i != -1 {
        MoreShards(groups[i].shards, maxShardID, maxShardID');
      }
    }
  }

  lemma MoreShards(shards: seq<Shard>, max: nat, max': nat)
    requires ShardsOk(shards, max) && max <= max'
    ensures ShardsOk(shards, max')
  {
  }

  lemma NewShardsOk(d: Data, p: Policy, shards: seq<Shard>)
    requires d.dataNodes != [] && DistinctNodeIds(d.dataNodes) && NewShards(d, p, shards)
    ensures ShardsOk(shards, d.maxShardID + |shards|)
    ensures forall i :: 0 <= i < |shards| ==> shards[i].id > d.maxShardID
  {
    ShardCount(|d.dataNodes|, ReplicaN(d, p));
    hide Seat, Placed;
    forall i | 0 <= i < |shards|
      ensures NoDuplicates(shards[i].owners)
    {
      OwnersNoDuplicates(shards, d.dataNodes, d.index % |d.dataNodes|, ReplicaN(d, p), i);
    }
  }

  lemma OwnersNoDuplicates(shards: seq<Shard>, nodes: seq<NodeInfo>, first: nat, replicaN: nat, i: nat)
    requires Placed(shards, nodes, first, replicaN) && DistinctNodeIds(nodes)
    requires 1 <= replicaN <= |nodes| && |shards| == |nodes| / replicaN && i < |shards|
    ensures NoDuplicates(shards[i].owners)
  {
    hide Seat;
    forall j, j' | 0 <= j < j' < |shards[i].owners|
      ensures shards[i].owners[j] != shards[i].owners[j']
    {
      OwnersAllDifferent(shards, nodes, first, replicaN, i, j, i, j');
    }
  }

  lemma MoreGroups(
    groups: seq<Group>, duration: int, maxGroupID: nat, maxShardID: nat, maxGroupID': nat, maxShardID': nat)
    requires GroupsOk(groups, duration, maxGroupID, maxShardID)
    requires maxGroupID <= maxGroupID' && maxShardID <= maxShardID'
    ensures GroupsOk(groups, duration, maxGroupID', maxShardID')
  {
    hide ShardsOk, DistinctGroupIds, LiveApart, SortedByStart;
    forall i | 0 <= i < |groups|
      ensures GroupOk(groups[i], duration, maxGroupID', maxShardID')
    {
      MoreShards(groups[i].shards, maxShardID, maxShardID');
    }
  }

  /** The group that a create command makes. */
  lemma CreatedParts(d: Data, l: Place, t: int, d': Data) returns (shards: seq<Shard>, groups: seq<Group>)
    requires ValidPlace(d, l) && d.dataNodes != [] && GroupCreated(d, l, t, d')
    ensures var p := PolicyAt(d, l);
            && NewShards(d, p, shards)
            && GroupInserted(p.groups, NewGroup(d, p, t, shards), groups)
            && ValidPlace(d', l) && PolicyAt(d', l) == p.(groups := groups)
    ensures d'.maxShardGroupID == d.maxShardGroupID + 1 && d'.maxShardID == d.maxShardID + |shards|
    ensures d'.dataNodes == d.dataNodes && d'.metaNodes == d.metaNodes && d'.maxNodeID == d.maxNodeID
    ensures forall k: Place :: ValidPlace(d', k) <==> ValidPlace(d, k)
    ensures forall k: Place :: ValidPlace(d, k) && k != l ==> PolicyAt(d', k) == PolicyAt(d, k)
  {
    hide NewShards, GroupInserted, SetGroups;
    var p := PolicyAt(d, l);
    shards, groups :|
      && NewShards(d, p, shards)
      && GroupInserted(p.groups, NewGroup(d, p, t, shards), groups)
      && d' == SetGroups(d, l, groups).(maxShardGroupID := d.maxShardGroupID + 1,
                                        maxShardID := d.maxShardID + |shards|,
                                        index := d'.index);
    SetGroupsKeeps(d, l, groups);
  }

  lemma SetGroupsKeeps(d: Data, l: Place, groups: seq<Group>)
    requires ValidPlace(d, l)
    ensures var r := SetGroups(d, l, groups);
            r == d.(databases := r.databases)
  {
  }

  lemma CreateKeepsPolicies(d: Data, l: Place, t: int, d': Data)
    requires PoliciesOk(d) && DistinctNodeIds(d.dataNodes)
    requires ValidPlace(d, l) && d.dataNodes != []
    requires GroupAt(PolicyAt(d, l).groups, t).None? && GroupCreated(d, l, t, d')
    ensures PoliciesOk(d')
  {
    hide GroupsOk, GroupInserted, NewShards, ShardsOk, GroupCreated;
    var shards, groups := CreatedParts(d, l, t, d');
    var p := PolicyAt(d, l);
    assert PolicyOk(d, l);
    NewShardsOk(d, p, shards);
    NewGroupOk(d, p, t, shards);
    var g := NewGroup(d, p, t, shards);
    InsertKeeps(p.groups, g, groups, p.duration, t, d.maxShardGroupID, d.maxShardID, d'.maxShardID);
    forall k: Place | ValidPlace(d', k)
      ensures PolicyOk(d', k)
    {
      if k != l {
        assert PolicyOk(d, k);
        var q := PolicyAt(d, k);
        MoreGroups(q.groups, q.duration, d.maxShardGroupID, d.maxShardID, d'.maxShardGroupID, d'.maxShardID);
      }
    }
  }

  lemma NewGroupOk(d: Data, p: Policy, t: int, shards: seq<Shard>)
    requires GroupsOk(p.groups, p.duration, d.maxShardGroupID, d.maxShardID)
    requires ShardsOk(shards, d.maxShardID + |shards|)
    ensures var g := NewGroup(d, p, t, shards);
            && GroupOk(g, p.duration, d.maxShardGroupID + 1, d.maxShardID + |shards|)
            && g.id == d.maxShardGroupID + 1 && g.start == Truncate(t, p.duration) && !Deleted(g)
  {
  }

  // ---------------------------------------------------------------- changing groups in place

  /** The group is the same but for owners given up and perhaps a deletion mark. */
  ghost predicate Reduced(g: Group, g': Group) {
    && g'.id == g.id && g'.start == g.start && g'.end == g.end
    && (Deleted(g) ==> Deleted(g'))
    && |g'.shards| == |g.shards|
    && forall i :: 0 <= i < |g.shards| ==>
         g'.shards[i].id == g.shards[i].id && (NoDuplicates(g.shards[i].owners) ==> NoDuplicates(g'.shards[i].owners))
  }

  lemma ReducedKeeps(groups: seq<Group>, groups': seq<Group>, duration: int, maxGroupID: nat, maxShardID: nat)
    requires GroupsOk(groups, duration, maxGroupID, maxShardID) && |groups'| == |groups|
    requires forall i :: 0 <= i < |groups| ==> Reduced(groups[i], groups'[i])
    ensures GroupsOk(groups', duration, maxGroupID, maxShardID)
  {
    forall i | 0 <= i < |groups|
      ensures GroupOk(groups'[i], duration, maxGroupID, maxShardID)
    {
      ReducedShards(groups[i], groups'[i], maxShardID);
    }
  }

  lemma ReducedShards(g: Group, g': Group, maxShardID: nat)
    requires Reduced(g, g') && ShardsOk(g.shards, maxShardID)
    ensures ShardsOk(g'.shards, maxShardID)
  {
  }

  lemma RelinquishNoDuplicates(s: Shard, id: nat)
    requires NoDuplicates(s.owners)
    ensures NoDuplicates(Relinquish(s, id).owners)
  {
  }

  lemma RelinquishReduces(g: Group, id: nat, now: int)
    ensures Reduced(g, RelinquishGroup(g, id, now))
  {
    forall i | 0 <= i < |g.shards| && NoDuplicates(g.shards[i].owners)
      ensures NoDuplicates(Relinquish(g.shards[i], id).owners)
    {
      RelinquishNoDuplicates(g.shards[i], id);
    }
  }

  lemma RelinquishKeepsPolicies(d: Data, id: nat, now: int, d': Data)
    requires PoliciesOk(d)
    requires d'.databases == RelinquishAll(d.databases, id, now)
    requires d'.maxShardGroupID == d.maxShardGroupID && d'.maxShardID == d.maxShardID
    ensures PoliciesOk(d')
  {
    hide GroupsOk, RelinquishGroup, Reduced;
    forall l: Place | ValidPlace(d', l)
      ensures PolicyOk(d', l)
    {
      assert PolicyOk(d, l);
      var p := PolicyAt(d, l);
      assert PolicyAt(d', l) == RelinquishPolicy(p, id, now);
      forall i | 0 <= i < |p.groups|
        ensures Reduced(p.groups[i], PolicyAt(d', l).groups[i])
      {
        RelinquishReduces(p.groups[i], id, now);
      }
      ReducedKeeps(p.groups, PolicyAt(d', l).groups, p.duration, d.maxShardGroupID, d.maxShardID);
    }
  }

  lemma MarkKeepsPolicies(d: Data, l: Place, gid: nat, now: int, d': Data)
    requires PoliciesOk(d) && ValidPlace(d, l)
    requires d' == SetGroups(d, l, MarkDeleted(PolicyAt(d, l).groups, gid, now)).(index := d'.index)
    ensures PoliciesOk(d')
  {
    hide GroupsOk, SetGroups;
    SetGroupsKeeps(d, l, MarkDeleted(PolicyAt(d, l).groups, gid, now));
    var p := PolicyAt(d, l);
    assert PolicyOk(d, l);
    ReducedKeeps(p.groups, MarkDeleted(p.groups, gid, now), p.duration, d.maxShardGroupID, d.maxShardID);
    forall k: Place | ValidPlace(d', k)
      ensures PolicyOk(d', k)
    {
      assert PolicyOk(d, k);
    }
  }

  /**
   Every command keeps the groups of every policy aligned to windows, sorted by
   start, with live groups apart and the owners of each shard distinct.
   */
  lemma StepKeepsPolicies(d: Data, c: Command, d': Data)
    requires PoliciesOk(d) && DistinctNodeIds(d.dataNodes) && Step(d, c, d')
    ensures PoliciesOk(d')
  {
    hide PolicyOk, GroupCreated, SetGroups, RelinquishAll, NodeInserted, DistinctNodeIds;
    match c
    case DeleteMetaNode(id, now) =>
      if |Without(d.metaNodes, id)| == |d.metaNodes| {
        SamePolicies(d, d');
      } else {
        RelinquishKeepsPolicies(d, id, now, d');
      }
    case CreateShardGroup(db, policy, t) =>
      var l := FindPolicy(d, db, policy);
      if d.dataNodes == [] || l.None? || GroupAt(PolicyAt(d, l.value).groups, t).Some? {
        SamePolicies(d, d');
      } else {
        CreateKeepsPolicies(d, l.value, t, d');
      }
    case DeleteShardGroup(db, policy, gid, now) =>
      var l := FindPolicy(d, db, policy);
      if l.None? {
        SamePolicies(d, d');
      } else {
        MarkKeepsPolicies(d, l.value, gid, now, d');
      }
    case CreateMetaNode(_, _) => SamePolicies(d, d');
    case CreateDataNode(_, _) => SamePolicies(d, d');
    case DeleteDataNode(_) => SamePolicies(d, d');
  }

  lemma SamePolicies(d: Data, d': Data)
    requires PoliciesOk(d) && d'.databases == d.databases
    requires d'.maxShardGroupID == d.maxShardGroupID && d'.maxShardID == d.maxShardID
    ensures PoliciesOk(d')
  {
    forall l: Place | ValidPlace(d', l)
      ensures PolicyOk(d', l)
    {
      assert PolicyOk(d, l);
    }
  }
}
