/** From a point's time and hash to its shard, now and later. */
module Routing {
  import opened Options
  import opened Metadata
  import opened Times
  import opened Placement
  import opened ClusterSpec
  import opened GroupProofs
  import opened ShardProofs

  /** The shard of a group that a hash value falls on. */
  function ShardFor(g: Group, hash: nat): Shard
    requires g.shards != []
  {
    g.shards[hash % |g.shards|]
  }

  /** The id of the shard for a time and a hash, if a live group holds the time. */
  function Route(groups: seq<Group>, t: int, hash: nat): Option<nat> {
    match GroupAt(groups, t)
    case None => None
    case Some(g) => if g.shards == [] then None else Some(ShardFor(g, hash).id)
  }

  ghost predicate DistinctShardIds(shards: seq<Shard>) {
    forall a, b :: 0 <= a < b < |shards| ==> shards[a].id != shards[b].id
  }

  /** As many consecutive hashes as a group has shards go to each of them exactly once. */
  lemma HashesSpread(groups: seq<Group>, t: int, from: nat, i: nat) returns (h: nat)
    requires GroupAt(groups, t).Some? && i < |GroupAt(groups, t).value.shards|
    requires DistinctShardIds(GroupAt(groups, t).value.shards)
    ensures var shards := GroupAt(groups, t).value.shards;
            && from <= h < from + |shards| && Route(groups, t, h) == Some(shards[i].id)
            && forall k :: from <= k < from + |shards| && Route(groups, t, k) == Some(shards[i].id) ==> k == h
  {
    var g := GroupAt(groups, t).value;
    var n := |g.shards|;
    var j := CirclePlace(from, n, i);
    h := from + j;
    forall k | from <= k < from + n && Route(groups, t, k) == Some(g.shards[i].id)
      ensures k == h
    {
      SameShardHash(g, k, h, i);
      if h <= k {
        SameOnCircle(from, j, k - from, n);
      } else {
        SameOnCircle(from, k - from, j, n);
      }
    }
  }

  lemma SameShardHash(g: Group, k: nat, h: nat, i: nat)
    requires DistinctShardIds(g.shards) && i < |g.shards| && h % |g.shards| == i
    requires ShardFor(g, k).id == g.shards[i].id
    ensures k % |g.shards| == h % |g.shards|
  {
  }

  predicate LiveAt(g: Group, t: int) {
    !Deleted(g) && Contains(g, t)
  }

  /** No two positions hold a live group for t. */
  ghost predicate OneLiveAt(groups: seq<Group>, t: int) {
    forall i, j :: 0 <= i < |groups| && 0 <= j < |groups| && LiveAt(groups[i], t) && LiveAt(groups[j], t) ==> i == j
  }

  // ---------------------------------------------------------------- names do not change

  ghost predicate SamePolicy(p: Policy, p': Policy) {
    p'.name == p.name && p'.duration == p.duration
  }

  /** The databases and policies are the same, but for their groups. */
  ghost predicate SameNames(d: Data, d': Data) {
    && |d'.databases| == |d.databases|
    && forall i :: 0 <= i < |d.databases| ==>
         && d'.databases[i].name == d.databases[i].name
         && |d'.databases[i].policies| == |d.databases[i].policies|
         && forall j :: 0 <= j < |d.databases[i].policies| ==>
              SamePolicy(d.databases[i].policies[j], d'.databases[i].policies[j])
  }

  lemma {:induction false} SameDbIndex(a: seq<Database>, b: seq<Database>, name: string)
    requires |a| == |b| && forall i :: 0 <= i < |a| ==> a[i].name == b[i].name
    ensures DbIndex(a, name) == DbIndex(b, name)
  {
    if a == [] {
    } else {
      SameDbIndex(a[1..], b[1..], name);
    }
  }

  lemma {:induction false} SamePolicyIndex(a: seq<Policy>, b: seq<Policy>, name: string)
    requires |a| == |b| && forall i :: 0 <= i < |a| ==> a[i].name == b[i].name
    ensures PolicyIndex(a, name) == PolicyIndex(b, name)
  {
    if a == [] {
    } else {
      SamePolicyIndex(a[1..], b[1..], name);
    }
  }

  lemma SameFind(d: Data, d': Data, db: string, policy: string)
    requires SameNames(d, d')
    ensures FindPolicy(d', db, policy) == FindPolicy(d, db, policy)
  {
    SameDbIndex(d.databases, d'.databases, db);
    var i := DbIndex(d.databases, db);
    if i < |d.databases| {
      var ps, ps' := d.databases[i].policies, d'.databases[i].policies;
      assert forall j :: 0 <= j < |ps| ==> SamePolicy(ps[j], ps'[j]);
      SamePolicyIndex(ps, ps', policy);
    }
  }

  lemma RelinquishSameNames(d: Data, id: nat, now: int, d': Data)
    requires d'.databases == RelinquishAll(d.databases, id, now)
    ensures SameNames(d, d')
  {
    hide RelinquishGroup;
    forall i | 0 <= i < |d.databases|
      ensures d'.databases[i].name == d.databases[i].name && |d'.databases[i].policies| == |d.databases[i].policies|
      ensures forall j :: 0 <= j < |d.databases[i].policies| ==>
          SamePolicy(d.databases[i].policies[j], d'.databases[i].policies[j])
    {
      assert d'.databases[i] == RelinquishDatabase(d.databases[i], id, now);
    }
  }

  lemma SetGroupsSameNames(d: Data, l: Place, groups: seq<Group>)
    requires ValidPlace(d, l)
    ensures SameNames(d, SetGroups(d, l, groups))
  {
  }

  lemma SameDatabases(d: Data, d': Data)
    requires d'.databases == d.databases
    ensures SameNames(d, d')
  {
  }

  /** No command changes the databases and policies, but for their groups. */
  lemma StepSameNames(d: Data, c: Command, d': Data)
    requires Step(d, c, d')
    ensures SameNames(d, d')
  {
    hide GroupCreated, FindPolicy, SetGroups, RelinquishAll, NodeInserted, SameNames;
    match c
    case DeleteMetaNode(id, now) =>
      if |Without(d.metaNodes, id)| == |d.metaNodes| {
        SameDatabases(d, d');
      } else {
        RelinquishSameNames(d, id, now, d');
      }
    case CreateShardGroup(db, policy, t) => CreateStepSameNames(d, db, policy, t, d');
    case DeleteShardGroup(db, policy, gid, now) =>
      var l := FindPolicy(d, db, policy);
      if l.None? {
        SameDatabases(d, d');
      } else {
        var r := SetGroups(d, l.value, MarkDeleted(PolicyAt(d, l.value).groups, gid, now));
        SetGroupsSameNames(d, l.value, MarkDeleted(PolicyAt(d, l.value).groups, gid, now));
        SameAgain(d, r, d');
      }
    case CreateMetaNode(_, _) => SameDatabases(d, d');
    case CreateDataNode(_, _) => SameDatabases(d, d');
    case DeleteDataNode(_) => SameDatabases(d, d');
  }

  lemma SameAgain(d: Data, r: Data, d': Data)
    requires SameNames(d, r) && d'.databases == r.databases
    ensures SameNames(d, d')
  {
  }

  lemma SameTransitive(a: Data, b: Data, c: Data)
    requires SameNames(a, b) && SameNames(b, c)
    ensures SameNames(a, c)
  {
    forall i | 0 <= i < |a.databases|
      ensures forall j :: 0 <= j < |a.databases[i].policies| ==>
          SamePolicy(a.databases[i].policies[j], c.databases[i].policies[j])
    {
      var ps, qs, rs := a.databases[i].policies, b.databases[i].policies, c.databases[i].policies;
      assert forall j :: 0 <= j < |ps| ==> SamePolicy(ps[j], qs[j]) && SamePolicy(qs[j], rs[j]);
    }
  }

  lemma {:induction false} RunSameNames(states: seq<Data>, commands: seq<Command>, i: nat, j: nat)
    requires Run(states, commands) && i <= j < |states|
    ensures SameNames(states[i], states[j])
    decreases j - i
  {
    hide Step, SameNames;
    if i == j {
      SameDatabases(states[i], states[j]);
    } else {
      StepSameNames(states[i], commands[i], states[i + 1]);
      RunSameNames(states, commands, i + 1, j);
      SameTransitive(states[i], states[i + 1], states[j]);
    }
  }

  /** A policy is found at the same place, with the same duration. */
  lemma SamePlace(d: Data, d': Data, db: string, policy: string, l: Place)
    requires SameNames(d, d') && FindPolicy(d, db, policy) == Some(l)
    ensures FindPolicy(d', db, policy) == Some(l) && PolicyAt(d', l).duration == PolicyAt(d, l).duration
  {
    SameFind(d, d', db, policy);
    assert SamePolicy(d.databases[l.i].policies[l.j], d'.databases[l.i].policies[l.j]);
  }

  lemma CreatedSameNames(d: Data, l: Place, t: int, d': Data)
    requires ValidPlace(d, l) && d.dataNodes != [] && GroupCreated(d, l, t, d')
    ensures SameNames(d, d')
  {
    var p := PolicyAt(d, l);
    var shards, groups :|
      && NewShards(d, p, shards)
      && GroupInserted(p.groups, NewGroup(d, p, t, shards), groups)
      && d' == SetGroups(d, l, groups).(maxShardGroupID := d.maxShardGroupID + 1,
                                        maxShardID := d.maxShardID + |shards|,
                                        index := d'.index);
  }

  // ---------------------------------------------------------------- creation on demand

  lemma CreateStepSameNames(d: Data, db: string, policy: string, t: int, d': Data)
    requires Step(d, CreateShardGroup(db, policy, t), d')
    ensures SameNames(d, d') && FindPolicy(d', db, policy) == FindPolicy(d, db, policy)
  {
    hide GroupCreated, FindPolicy;
    var l := FindPolicy(d, db, policy);
    if !(d.dataNodes == [] || l.None? || GroupAt(PolicyAt(d, l.value).groups, t).Some?) {
      CreatedSameNames(d, l.value, t, d');
    }
    SameFind(d, d', db, policy);
  }

  /** With data nodes present, the requested instant ends up in exactly one live group. */
  lemma CreateCovers(d: Data, db: string, policy: string, t: int, d': Data, l: Place)
    requires PoliciesOk(d) && DistinctNodeIds(d.dataNodes) && d.dataNodes != []
    requires FindPolicy(d, db, policy) == Some(l) && Step(d, CreateShardGroup(db, policy, t), d')
    ensures ValidPlace(d', l) && GroupAt(PolicyAt(d', l).groups, t).Some?
    ensures OneLiveAt(PolicyAt(d', l).groups, t)
  {
    StepKeepsPolicies(d, CreateShardGroup(db, policy, t), d');
    hide GroupCreated, FindPolicy, PoliciesOk;
    if GroupAt(PolicyAt(d, l).groups, t).None? {
      CreatedHolds(d, l, t, d');
    }
    LiveOnce(d', l, t);
  }

  lemma CreatedHolds(d: Data, l: Place, t: int, d': Data)
    requires PoliciesOk(d) && ValidPlace(d, l) && d.dataNodes != [] && GroupCreated(d, l, t, d')
    ensures ValidPlace(d', l) && GroupAt(PolicyAt(d', l).groups, t).Some?
  {
    var shards, groups := CreatedParts(d, l, t, d');
    var g := NewGroup(d, PolicyAt(d, l), t, shards);
    assert PolicyOk(d, l);
    InsertedGroupTo(PolicyAt(d, l).groups, g, groups, g);
    assert g in PolicyAt(d', l).groups && Contains(g, t) && !Deleted(g);
  }

  lemma LiveOnce(d: Data, l: Place, t: int)
    requires PoliciesOk(d) && ValidPlace(d, l)
    ensures OneLiveAt(PolicyAt(d, l).groups, t)
  {
    assert PolicyOk(d, l);
    var p := PolicyAt(d, l);
    hide PoliciesOk, PolicyOk, GroupsOk;
    forall i, j | 0 <= i < |p.groups| && 0 <= j < |p.groups| && LiveAt(p.groups[i], t) && LiveAt(p.groups[j], t)
      ensures i == j
    {
      LiveDisjoint(p.groups, p.duration, d.maxShardGroupID, d.maxShardID, i, j, t);
    }
  }

  /** Asking again inside the same window changes nothing and uses up no ids. */
  lemma CreateAgain(d: Data, db: string, policy: string, t: int, d': Data, l: Place, t': int, d'': Data)
    requires PoliciesOk(d) && DistinctNodeIds(d.dataNodes) && d.dataNodes != []
    requires FindPolicy(d, db, policy) == Some(l) && Step(d, CreateShardGroup(db, policy, t), d')
    requires Truncate(t', PolicyAt(d, l).duration) == Truncate(t, PolicyAt(d, l).duration)
    requires Step(d', CreateShardGroup(db, policy, t'), d'')
    ensures Unchanged(d', d'')
  {
    CreateCovers(d, db, policy, t, d', l);
    CreateStepSameNames(d, db, policy, t, d');
    CreateStepSameDuration(d, db, policy, t, d', l);
    StepKeepsPolicies(d, CreateShardGroup(db, policy, t), d');
    assert PolicyOk(d', l);
    var p := PolicyAt(d', l);
    hide PoliciesOk, PolicyOk, GroupCreated, FindPolicy, Truncate, SameNames, DistinctNodeIds;
    assert forall i :: 0 <= i < |p.groups| ==> GroupOk(p.groups[i], p.duration, d'.maxShardGroupID, d'.maxShardID);
    SameGroupInWindow(p.groups, p.duration, t, t');
  }

  lemma CreateStepSameDuration(d: Data, db: string, policy: string, t: int, d': Data, l: Place)
    requires FindPolicy(d, db, policy) == Some(l) && Step(d, CreateShardGroup(db, policy, t), d')
    ensures ValidPlace(d', l) && PolicyAt(d', l).duration == PolicyAt(d, l).duration
  {
    hide GroupCreated;
    if !(d.dataNodes == [] || GroupAt(PolicyAt(d, l).groups, t).Some?) {
      var shards, groups := CreatedParts(d, l, t, d');
    }
  }

  // ---------------------------------------------------------------- routes do not move

  /** A later version of a group: same id, same window, same shard ids; it may have been deleted. */
  ghost predicate Later(g: Group, g': Group) {
    && g'.id == g.id && g'.start == g.start && g'.end == g.end
    && (Deleted(g) ==> Deleted(g'))
    && |g'.shards| == |g.shards|
    && forall i :: 0 <= i < |g.shards| ==> g'.shards[i].id == g.shards[i].id
  }

  /** The commands that can mark a group as deleted. */
  predicate Deletes(c: Command) {
    c.DeleteMetaNode? || c.DeleteShardGroup?
  }

  /** No command removes a group or changes its window or its shards; only two can delete it. */
  lemma StepLater(d: Data, c: Command, d': Data, l: Place, i: nat) returns (k: nat)
    requires Step(d, c, d') && ValidPlace(d, l) && i < |PolicyAt(d, l).groups|
    ensures ValidPlace(d', l) && k < |PolicyAt(d', l).groups|
    ensures Later(PolicyAt(d, l).groups[i], PolicyAt(d', l).groups[k])
    ensures Deleted(PolicyAt(d', l).groups[k]) ==> Deleted(PolicyAt(d, l).groups[i]) || Deletes(c)
    ensures PolicyAt(d', l).duration == PolicyAt(d, l).duration
  {
    hide GroupCreated, SetGroups, NodeInserted;
    k := i;
    match c
    case DeleteMetaNode(id, now) =>
      if |Without(d.metaNodes, id)| != |d.metaNodes| {
        assert PolicyAt(d', l) == RelinquishPolicy(PolicyAt(d, l), id, now);
        RelinquishReduces(PolicyAt(d, l).groups[i], id, now);
      }
    case CreateShardGroup(db, policy, t) =>
      var m := FindPolicy(d, db, policy);
      if !(d.dataNodes == [] || m.None? || GroupAt(PolicyAt(d, m.value).groups, t).Some?) {
        k := CreatedLater(d, m.value, t, d', l, i);
      }
    case DeleteShardGroup(db, policy, gid, now) =>
      var m := FindPolicy(d, db, policy);
      if m.Some? {
        var groups := MarkDeleted(PolicyAt(d, m.value).groups, gid, now);
        assert ValidPlace(SetGroups(d, m.value, groups), l);
      }
    case CreateMetaNode(_, _) =>
    case CreateDataNode(_, _) =>
    case DeleteDataNode(_) =>
  }

  lemma CreatedLater(d: Data, m: Place, t: int, d': Data, l: Place, i: nat) returns (k: nat)
    requires ValidPlace(d, m) && d.dataNodes != [] && GroupCreated(d, m, t, d')
    requires ValidPlace(d, l) && i < |PolicyAt(d, l).groups|
    ensures ValidPlace(d', l) && k < |PolicyAt(d', l).groups| && PolicyAt(d', l).groups[k] == PolicyAt(d, l).groups[i]
    ensures PolicyAt(d', l).duration == PolicyAt(d, l).duration
  {
    hide GroupCreated, GroupInserted, NewShards;
    var shards, groups := CreatedParts(d, m, t, d');
    k := i;
    if l == m {
      InsertedGroupTo(PolicyAt(d, l).groups, NewGroup(d, PolicyAt(d, l), t, shards), groups, PolicyAt(d, l).groups[i]);
      k :| 0 <= k < |groups| && groups[k] == PolicyAt(d, l).groups[i];
    }
  }

  lemma LaterTransitive(a: Group, b: Group, c: Group)
    requires Later(a, b) && Later(b, c)
    ensures Later(a, c)
  {
  }

  lemma {:induction false} RunLater(
    states: seq<Data>, commands: seq<Command>, i: nat, j: nat, l: Place, a: nat)
    returns (b: nat)
    requires Run(states, commands) && i <= j < |states|
    requires ValidPlace(states[i], l) && a < |PolicyAt(states[i], l).groups|
    ensures ValidPlace(states[j], l) && b < |PolicyAt(states[j], l).groups|
    ensures Later(PolicyAt(states[i], l).groups[a], PolicyAt(states[j], l).groups[b])
    ensures !Deleted(PolicyAt(states[i], l).groups[a]) && (forall m :: i <= m < j ==> !Deletes(commands[m])) ==>
              !Deleted(PolicyAt(states[j], l).groups[b])
    decreases j - i
  {
    hide Step;
    b := a;
    if i == j {
    } else {
      var k := StepLater(states[i], commands[i], states[i + 1], l, a);
      b := RunLater(states, commands, i + 1, j, l, k);
      hide Later;
      var g, g' := PolicyAt(states[i], l).groups[a], PolicyAt(states[i + 1], l).groups[k];
      LaterTransitive(g, g', PolicyAt(states[j], l).groups[b]);
    }
  }

  lemma RoutedGroup(groups: seq<Group>, t: int, b: nat)
    requires b < |groups| && !Deleted(groups[b]) && Contains(groups[b], t)
    requires OneLiveAt(groups, t)
    ensures GroupAt(groups, t) == Some(groups[b])
  {
    assert groups[b] in groups;
    var g := GroupAt(groups, t).value;
    var i :| 0 <= i < |groups| && groups[i] == g;
  }

  /**
   The group that is created for an instant is the one found for it afterwards.
   It has the next id, spans one duration of the policy, and its new shards
   have the owners that the policy's replication factor asks for, dealt out
   from the node at the metadata index.
   */
  lemma CreatedGroup(d: Data, db: string, policy: string, l: Place, t: int, d': Data)
    requires PoliciesOk(d) && DistinctNodeIds(d.dataNodes) && d.dataNodes != []
    requires FindPolicy(d, db, policy) == Some(l) && GroupAt(PolicyAt(d, l).groups, t).None?
    requires Step(d, CreateShardGroup(db, policy, t), d')
    ensures ValidPlace(d', l) && GroupAt(PolicyAt(d', l).groups, t).Some?
    ensures var g := GroupAt(PolicyAt(d', l).groups, t).value;
            && g.id == d.maxShardGroupID + 1 && g.end == g.start + PolicyAt(d, l).duration
            && d'.maxShardGroupID == g.id && d'.maxShardID == d.maxShardID + |g.shards|
            && (forall i :: 0 <= i < |g.shards| ==> g.shards[i].id == d.maxShardID + 1 + i)
            && Replicated(g.shards, d.dataNodes, PolicyAt(d, l).replicaN)
            && RoundRobin(g.shards, d.dataNodes, d.index % |d.dataNodes|)
  {
    CreateCovers(d, db, policy, t, d', l);
    assert PolicyOk(d, l);
    hide PoliciesOk, FindPolicy, GroupCreated, NewShards, GroupInserted, OneLiveAt, Replicated, RoundRobin;
    var shards, groups := CreatedParts(d, l, t, d');
    var g := NewGroup(d, PolicyAt(d, l), t, shards);
    InsertedGroupTo(PolicyAt(d, l).groups, g, groups, g);
    var b :| 0 <= b < |groups| && groups[b] == g;
    assert LiveAt(groups[b], t);
    RoutedGroup(groups, t, b);
    NewShardsPlaced(d, PolicyAt(d, l), shards);
  }

  lemma NewShardsPlaced(d: Data, p: Policy, shards: seq<Shard>)
    requires d.dataNodes != [] && NewShards(d, p, shards)
    ensures forall i :: 0 <= i < |shards| ==> shards[i].id == d.maxShardID + 1 + i
    ensures Replicated(shards, d.dataNodes, p.replicaN)
    ensures RoundRobin(shards, d.dataNodes, d.index % |d.dataNodes|)
  {
    hide Placed, Replicated, RoundRobin;
    PlacedReplicas(shards, d.dataNodes, d.index % |d.dataNodes|, p.replicaN);
    PlacedInTurn(shards, d.dataNodes, d.index % |d.dataNodes|, ReplicaN(d, p));
  }

  /**
   Points with one hash in one window go to one shard in every later request, as
   long as the group they were first routed to is not deleted.
   */
  lemma RouteStable(
    states: seq<Data>, commands: seq<Command>, i: nat, j: nat, l: Place, a: nat, b: nat, t: int, t': int, hash: nat)
    requires Run(states, commands) && i <= j < |states| && PoliciesOk(states[i]) && PoliciesOk(states[j])
    requires ValidPlace(states[i], l) && ValidPlace(states[j], l)
    requires a < |PolicyAt(states[i], l).groups| && b < |PolicyAt(states[j], l).groups|
    requires Truncate(t, PolicyAt(states[i], l).duration) == Truncate(t', PolicyAt(states[i], l).duration)
    requires !Deleted(PolicyAt(states[i], l).groups[a]) && Contains(PolicyAt(states[i], l).groups[a], t)
    requires PolicyAt(states[j], l).groups[b].id == PolicyAt(states[i], l).groups[a].id
    requires !Deleted(PolicyAt(states[j], l).groups[b])
    ensures Route(PolicyAt(states[i], l).groups, t, hash).Some?
    ensures Route(PolicyAt(states[j], l).groups, t', hash) == Route(PolicyAt(states[i], l).groups, t, hash)
  {
    var p, p' := PolicyAt(states[i], l), PolicyAt(states[j], l);
    var k := RunLater(states, commands, i, j, l, a);
    SamePosition(states[j], l, k, b);
    InWindow(states[i], l, a, t, t');
    LiveOnce(states[i], l, t);
    LiveOnce(states[j], l, t');
    HasShards(states[i], l, a);
    hide PoliciesOk, Run, Truncate;
    RoutedGroup(p.groups, t, a);
    RoutedGroup(p'.groups, t', b);
  }

  lemma InWindow(d: Data, l: Place, a: nat, t: int, t': int)
    requires PoliciesOk(d) && ValidPlace(d, l) && a < |PolicyAt(d, l).groups|
    requires Truncate(t, PolicyAt(d, l).duration) == Truncate(t', PolicyAt(d, l).duration)
    ensures Contains(PolicyAt(d, l).groups[a], t) <==> Contains(PolicyAt(d, l).groups[a], t')
  {
    assert PolicyOk(d, l);
    var p := PolicyAt(d, l);
    assert GroupOk(p.groups[a], p.duration, d.maxShardGroupID, d.maxShardID);
    hide Truncate;
    OneWindow(p.groups[a], p.duration, t);
    OneWindow(p.groups[a], p.duration, t');
  }

  lemma HasShards(d: Data, l: Place, a: nat)
    requires PoliciesOk(d) && ValidPlace(d, l) && a < |PolicyAt(d, l).groups|
    ensures PolicyAt(d, l).groups[a].shards != []
  {
    assert PolicyOk(d, l);
    assert GroupOk(PolicyAt(d, l).groups[a], PolicyAt(d, l).duration, d.maxShardGroupID, d.maxShardID);
  }
}
