/**
 Replicas that apply one log with clocks of their own: they agree on everything
 but the time in a deletion mark and the order of groups with equal starts.
 */
module ReplicaProofs {
  import opened Options
  import opened Metadata
  import opened Placement
  import opened ClusterSpec
  import opened NodeProofs
  import opened GroupProofs
  import opened ShardProofs
  import opened Routing
  import opened ClusterObject

  // ---------------------------------------------------------------- agreement

  function Undated(g: Group): Group {
    if Deleted(g) then g.(deletedAt := Some(0)) else g
  }

  /** What the groups show, but for times of deletion and their order. */
  function Shown(groups: seq<Group>): set<Group> {
    set g | g in groups :: Undated(g)
  }

  ghost predicate PolicyAgrees(p: Policy, q: Policy) {
    q == p.(groups := q.groups) && Shown(q.groups) == Shown(p.groups)
  }

  ghost predicate DatabaseAgrees(a: Database, b: Database) {
    && b == a.(policies := b.policies) && |b.policies| == |a.policies|
    && forall j :: 0 <= j < |a.policies| ==> PolicyAgrees(a.policies[j], b.policies[j])
  }

  ghost predicate DatabasesAgree(a: seq<Database>, b: seq<Database>) {
    |b| == |a| && forall i :: 0 <= i < |a| ==> DatabaseAgrees(a[i], b[i])
  }

  /** The meta nodes can differ in the order of entries with one id. */
  ghost predicate Agree(d: Data, e: Data) {
    && e == d.(databases := e.databases, metaNodes := e.metaNodes)
    && multiset(e.metaNodes) == multiset(d.metaNodes)
    && DatabasesAgree(d.databases, e.databases)
  }

  /** The same entry of the log, applied at a time of each replica's own. */
  predicate SameEntry(c: Command, c': Command) {
    match c
    case DeleteMetaNode(id, _) => c'.DeleteMetaNode? && c'.id == id
    case DeleteShardGroup(db, policy, gid, _) =>
      c'.DeleteShardGroup? && c'.db == db && c'.policy == policy && c'.gid == gid
    case _ => c' == c
  }

  lemma AgreeAt(d: Data, e: Data, l: Place)
    requires DatabasesAgree(d.databases, e.databases)
    ensures ValidPlace(d, l) <==> ValidPlace(e, l)
    ensures ValidPlace(d, l) ==> PolicyAgrees(PolicyAt(d, l), PolicyAt(e, l))
  {
    if l.i < |d.databases| {
      assert DatabaseAgrees(d.databases[l.i], e.databases[l.i]);
    }
  }

  lemma AgreeFind(d: Data, e: Data, db: string, policy: string)
    requires DatabasesAgree(d.databases, e.databases)
    ensures FindPolicy(e, db, policy) == FindPolicy(d, db, policy)
  {
    forall i | 0 <= i < |d.databases|
      ensures e.databases[i].name == d.databases[i].name && |e.databases[i].policies| == |d.databases[i].policies|
      ensures forall j :: 0 <= j < |d.databases[i].policies| ==>
                SamePolicy(d.databases[i].policies[j], e.databases[i].policies[j])
    {
      assert DatabaseAgrees(d.databases[i], e.databases[i]);
      assert forall j :: 0 <= j < |d.databases[i].policies| ==>
          PolicyAgrees(d.databases[i].policies[j], e.databases[i].policies[j]);
    }
    SameFind(d, e, db, policy);
  }

  // ---------------------------------------------------------------- nodes

  lemma SameMembers(a: seq<NodeInfo>, b: seq<NodeInfo>, n: NodeInfo)
    requires multiset(a) == multiset(b)
    ensures n in a <==> n in b
  {
    assert n in a <==> n in multiset(a);
    assert n in b <==> n in multiset(b);
  }

  lemma SameIdOfHost(d: Data, e: Data, g: map<nat, string>, h: map<nat, string>, tcpHost: string)
    requires multiset(d.metaNodes) == multiset(e.metaNodes) && NodesInv(d, g) && NodesInv(e, h)
    ensures IdOfHost(d.metaNodes, tcpHost) == IdOfHost(e.metaNodes, tcpHost)
  {
    var x, y := IdOfHost(d.metaNodes, tcpHost), IdOfHost(e.metaNodes, tcpHost);
    assert forall n :: n in d.metaNodes ==> IsLive(d, n);
    assert forall n :: n in e.metaNodes ==> IsLive(e, n);
    IdOfHostFound(d.metaNodes, tcpHost, x);
    IdOfHostFound(e.metaNodes, tcpHost, y);
    forall n
      ensures n in d.metaNodes <==> n in e.metaNodes
    {
      SameMembers(d.metaNodes, e.metaNodes, n);
    }
    if x != 0 && y != 0 {
      var m :| m in d.metaNodes && m.tcpHost == tcpHost && m.id == x;
      var n :| n in e.metaNodes && n.tcpHost == tcpHost && n.id == y;
      assert IsLive(d, m) && IsLive(d, n);
    }
  }

  lemma FirstIsLeast(a: seq<NodeInfo>, b: seq<NodeInfo>)
    requires StrictlySortedById(a) && StrictlySortedById(b) && multiset(a) == multiset(b) && a != []
    ensures b != [] && a[0] == b[0]
  {
    assert a[0] in multiset(b);
    var i :| 0 <= i < |b| && b[i] == a[0];
    assert b[0] in multiset(a);
    var j :| 0 <= j < |a| && a[j] == b[0];
  }

  /** A strictly sorted list is determined by its entries. */
  lemma {:induction false} StrictUnique(a: seq<NodeInfo>, b: seq<NodeInfo>)
    requires StrictlySortedById(a) && StrictlySortedById(b) && multiset(a) == multiset(b)
    ensures a == b
  {
    if a == [] {
      assert |b| == |multiset(b)|;
    } else {
      FirstIsLeast(a, b);
      assert a == [a[0]] + a[1..] && b == [b[0]] + b[1..];
      assert multiset(a[1..]) == multiset(a) - multiset{a[0]};
      assert multiset(b[1..]) == multiset(b) - multiset{b[0]};
      StrictUnique(a[1..], b[1..]);
    }
  }

  lemma {:induction false} WithoutCount(ns: seq<NodeInfo>, id: nat, n: NodeInfo)
    ensures multiset(Without(ns, id))[n] == if n.id == id then 0 else multiset(ns)[n]
  {
    if ns == [] {
    } else {
      WithoutCount(ns[1..], id, n);
      assert ns == [ns[0]] + ns[1..];
      WithoutStep(ns, id);
    }
  }

  lemma WithoutAgrees(a: seq<NodeInfo>, b: seq<NodeInfo>, id: nat)
    requires multiset(a) == multiset(b)
    ensures multiset(Without(a, id)) == multiset(Without(b, id))
    ensures |Without(a, id)| == |a| <==> |Without(b, id)| == |b|
  {
    forall n
      ensures multiset(Without(a, id))[n] == multiset(Without(b, id))[n]
    {
      WithoutCount(a, id, n);
      WithoutCount(b, id, n);
    }
    assert |Without(a, id)| == |multiset(Without(a, id))| && |Without(b, id)| == |multiset(Without(b, id))|;
    assert |a| == |multiset(a)| && |b| == |multiset(b)|;
  }

  // ---------------------------------------------------------------- groups

  lemma RelinquishUndated(g: Group, h: Group, id: nat, now: int, now': int)
    requires Undated(g) == Undated(h)
    ensures Undated(RelinquishGroup(g, id, now)) == Undated(RelinquishGroup(h, id, now'))
  {
    assert g.shards == h.shards;
  }

  lemma RelinquishShown(p: Policy, q: Policy, id: nat, now: int, now': int)
    requires Shown(p.groups) <= Shown(q.groups)
    ensures Shown(RelinquishPolicy(p, id, now).groups) <= Shown(RelinquishPolicy(q, id, now').groups)
  {
    hide RelinquishGroup, Undated;
    var ps, qs := RelinquishPolicy(p, id, now).groups, RelinquishPolicy(q, id, now').groups;
    forall x | x in Shown(ps)
      ensures x in Shown(qs)
    {
      var i :| 0 <= i < |ps| && x == Undated(ps[i]);
      assert Undated(p.groups[i]) in Shown(p.groups);
      var h :| h in q.groups && Undated(h) == Undated(p.groups[i]);
      var k :| 0 <= k < |q.groups| && q.groups[k] == h;
      RelinquishUndated(p.groups[i], h, id, now, now');
      assert qs[k] in qs;
    }
  }

  lemma RelinquishAgrees(a: seq<Database>, b: seq<Database>, id: nat, now: int, now': int)
    requires DatabasesAgree(a, b)
    ensures DatabasesAgree(RelinquishAll(a, id, now), RelinquishAll(b, id, now'))
  {
    hide Shown, RelinquishGroup;
    forall i | 0 <= i < |a|
      ensures DatabaseAgrees(RelinquishAll(a, id, now)[i], RelinquishAll(b, id, now')[i])
    {
      assert DatabaseAgrees(a[i], b[i]);
      var r, s := RelinquishDatabase(a[i], id, now), RelinquishDatabase(b[i], id, now');
      forall j | 0 <= j < |r.policies|
        ensures PolicyAgrees(r.policies[j], s.policies[j])
      {
        var p, q := a[i].policies[j], b[i].policies[j];
        assert PolicyAgrees(p, q);
        RelinquishShown(p, q, id, now, now');
        RelinquishShown(q, p, id, now', now);
      }
    }
  }

  /** A live group for an instant is shown by both. */
  lemma ShownAt(a: seq<Group>, b: seq<Group>, t: int)
    requires Shown(a) <= Shown(b) && GroupAt(a, t).Some?
    ensures GroupAt(b, t).Some?
  {
    var g := GroupAt(a, t).value;
    assert Undated(g) in Shown(a);
    var h :| h in b && Undated(h) == Undated(g);
    assert Contains(h, t) && !Deleted(h);
  }

  lemma InsertShown(groups: seq<Group>, g: Group, groups': seq<Group>)
    requires GroupInserted(groups, g, groups')
    ensures Shown(groups') == Shown(groups) + {Undated(g)}
  {
    forall x: Group
      ensures x in groups' <==> x in groups || x == g
    {
      assert x in groups' <==> x in multiset(groups');
      assert x in groups <==> x in multiset(groups);
    }
  }

  function Mark(g: Group, gid: nat, now: int): Group {
    if g.id == gid then g.(deletedAt := Some(now)) else g
  }

  lemma MarkedAt(groups: seq<Group>, gid: nat, now: int, i: nat)
    requires DistinctGroupIds(groups) && i < |groups|
    ensures MarkDeleted(groups, gid, now)[i] == Mark(groups[i], gid, now)
  {
    if k :| 0 <= k < |groups| && groups[k].id == gid {
      MarkAt(groups, gid, now, k);
    } else {
      MarkAt(groups, gid, now, |groups|);
    }
  }

  lemma MarkShown(a: seq<Group>, b: seq<Group>, gid: nat, now: int, now': int)
    requires DistinctGroupIds(a) && DistinctGroupIds(b) && Shown(a) <= Shown(b)
    ensures Shown(MarkDeleted(a, gid, now)) <= Shown(MarkDeleted(b, gid, now'))
  {
    hide MarkDeleted, DistinctGroupIds;
    var ms, ns := MarkDeleted(a, gid, now), MarkDeleted(b, gid, now');
    forall x | x in Shown(ms)
      ensures x in Shown(ns)
    {
      var i :| 0 <= i < |ms| && x == Undated(ms[i]);
      MarkedAt(a, gid, now, i);
      assert Undated(a[i]) in Shown(a);
      var h :| h in b && Undated(h) == Undated(a[i]);
      var k :| 0 <= k < |b| && b[k] == h;
      MarkedAt(b, gid, now', k);
      assert ns[k] in ns;
    }
  }

  lemma SetGroupsAgree(d: Data, e: Data, l: Place, a: seq<Group>, b: seq<Group>)
    requires DatabasesAgree(d.databases, e.databases) && ValidPlace(d, l) && ValidPlace(e, l) && Shown(a) == Shown(b)
    ensures DatabasesAgree(SetGroups(d, l, a).databases, SetGroups(e, l, b).databases)
  {
    hide Shown;
    var r, s := SetGroups(d, l, a).databases, SetGroups(e, l, b).databases;
    forall i | 0 <= i < |r|
      ensures DatabaseAgrees(r[i], s[i])
    {
      assert DatabaseAgrees(d.databases[i], e.databases[i]);
      forall j | 0 <= j < |r[i].policies|
        ensures PolicyAgrees(r[i].policies[j], s[i].policies[j])
      {
        assert PolicyAgrees(d.databases[i].policies[j], e.databases[i].policies[j]);
      }
    }
  }

  // ---------------------------------------------------------------- the commands

  /** The shards of a new group are determined by the metadata. */
  lemma NewShardsUnique(d: Data, p: Policy, e: Data, q: Policy, a: seq<Shard>, b: seq<Shard>)
    requires d.dataNodes != [] && e.dataNodes == d.dataNodes && e.maxShardID == d.maxShardID && e.index == d.index
    requires q.replicaN == p.replicaN && NewShards(d, p, a) && NewShards(e, q, b)
    ensures a == b
  {
    hide Seat;
    forall i | 0 <= i < |a|
      ensures a[i] == b[i]
    {
      assert a[i].owners == b[i].owners;
    }
  }

  /** What a creation stores, with the data it leaves spelled out. */
  lemma CreatedAs(d: Data, l: Place, t: int, d': Data) returns (shards: seq<Shard>, groups: seq<Group>)
    requires ValidPlace(d, l) && d.dataNodes != [] && GroupCreated(d, l, t, d')
    ensures NewShards(d, PolicyAt(d, l), shards)
    ensures GroupInserted(PolicyAt(d, l).groups, NewGroup(d, PolicyAt(d, l), t, shards), groups)
    ensures d' == d.(databases := SetGroups(d, l, groups).databases, maxShardGroupID := d.maxShardGroupID + 1,
                     maxShardID := d.maxShardID + |shards|, index := d'.index)
  {
    hide NewShards, GroupInserted;
    shards, groups :|
      && NewShards(d, PolicyAt(d, l), shards)
      && GroupInserted(PolicyAt(d, l).groups, NewGroup(d, PolicyAt(d, l), t, shards), groups)
      && d' == SetGroups(d, l, groups).(maxShardGroupID := d.maxShardGroupID + 1,
                                        maxShardID := d.maxShardID + |shards|,
                                        index := d'.index);
  }

  /** Both replicas store the same group. */
  lemma SameCreation(
    d: Data, p: Policy, t: int, a: seq<Shard>, gs: seq<Group>, e: Data, q: Policy, b: seq<Shard>, hs: seq<Group>)
    requires d.dataNodes != [] && e.dataNodes == d.dataNodes && e.index == d.index
    requires e.maxShardID == d.maxShardID && e.maxShardGroupID == d.maxShardGroupID
    requires PolicyAgrees(p, q) && NewShards(d, p, a) && NewShards(e, q, b)
    requires GroupInserted(p.groups, NewGroup(d, p, t, a), gs) && GroupInserted(q.groups, NewGroup(e, q, t, b), hs)
    ensures a == b && Shown(gs) == Shown(hs)
  {
    NewShardsUnique(d, p, e, q, a, b);
    assert NewGroup(d, p, t, a) == NewGroup(e, q, t, b);
    hide NewShards, GroupInserted, NewGroup, Shown, Undated;
    InsertShown(p.groups, NewGroup(d, p, t, a), gs);
    InsertShown(q.groups, NewGroup(e, q, t, b), hs);
  }

  lemma CreationAgrees(d: Data, l: Place, t: int, d': Data, e: Data, e': Data)
    requires Agree(d, e) && ValidPlace(d, l) && ValidPlace(e, l) && d.dataNodes != [] && d'.index == e'.index
    requires GroupCreated(d, l, t, d') && GroupCreated(e, l, t, e')
    ensures Agree(d', e')
  {
    AgreeAt(d, e, l);
    hide GroupCreated, NewShards, GroupInserted, SetGroups, DatabasesAgree, Shown, NewGroup, PolicyAgrees;
    var a, groups := CreatedAs(d, l, t, d');
    var b, groups' := CreatedAs(e, l, t, e');
    SameCreation(d, PolicyAt(d, l), t, a, groups, e, PolicyAt(e, l), b, groups');
    SetGroupsAgree(d, e, l, groups, groups');
  }

  lemma CreateGroupAgrees(d: Data, db: string, policy: string, t: int, d': Data, e: Data, e': Data)
    requires Agree(d, e) && d'.index == e'.index
    requires Step(d, CreateShardGroup(db, policy, t), d') && Step(e, CreateShardGroup(db, policy, t), e')
    ensures Agree(d', e')
  {
    AgreeFind(d, e, db, policy);
    var l := FindPolicy(d, db, policy);
    hide FindPolicy, GroupCreated, Shown;
    if l.Some? {
      AgreeAt(d, e, l.value);
      hide DatabasesAgree;
      var a, b := PolicyAt(d, l.value).groups, PolicyAt(e, l.value).groups;
      if GroupAt(a, t).Some? {
        ShownAt(a, b, t);
      } else if GroupAt(b, t).Some? {
        ShownAt(b, a, t);
      }
      if d.dataNodes != [] && GroupAt(a, t).None? {
        CreationAgrees(d, l.value, t, d', e, e');
      }
    }
  }

  lemma DeleteGroupAgrees(
    d: Data, db: string, policy: string, gid: nat, now: int, d': Data, e: Data, now': int, e': Data)
    requires Agree(d, e) && PoliciesOk(d) && PoliciesOk(e) && d'.index == e'.index
    requires Step(d, DeleteShardGroup(db, policy, gid, now), d') && Step(e, DeleteShardGroup(db, policy, gid, now'), e')
    ensures Agree(d', e')
  {
    AgreeFind(d, e, db, policy);
    var l := FindPolicy(d, db, policy);
    hide FindPolicy;
    if l.Some? {
      AgreeAt(d, e, l.value);
      assert PolicyOk(d, l.value) && PolicyOk(e, l.value);
      var a, b := PolicyAt(d, l.value).groups, PolicyAt(e, l.value).groups;
      hide PoliciesOk, DatabasesAgree, SetGroups, Shown, MarkDeleted, DistinctGroupIds;
      MarkShown(a, b, gid, now, now');
      MarkShown(b, a, gid, now', now);
      SetGroupsAgree(d, e, l.value, MarkDeleted(a, gid, now), MarkDeleted(b, gid, now'));
      SetGroupsKeeps(d, l.value, MarkDeleted(a, gid, now));
      SetGroupsKeeps(e, l.value, MarkDeleted(b, gid, now'));
    }
  }

  lemma MetaInserted(d: Data, e: Data, n: NodeInfo, d': Data, e': Data)
    requires multiset(e.metaNodes) == multiset(d.metaNodes)
    requires NodeInserted(d.metaNodes, n, d'.metaNodes) && NodeInserted(e.metaNodes, n, e'.metaNodes)
    ensures multiset(e'.metaNodes) == multiset(d'.metaNodes)
  {
  }

  lemma CreateMetaAgrees(
    d: Data, g: map<nat, string>, host: string, tcpHost: string, d': Data, e: Data, h: map<nat, string>, e': Data)
    requires Agree(d, e) && NodesInv(d, g) && NodesInv(e, h) && d'.index == e'.index
    requires Step(d, CreateMetaNode(host, tcpHost), d') && Step(e, CreateMetaNode(host, tcpHost), e')
    ensures Agree(d', e')
  {
    SameIdOfHost(d, e, g, h, tcpHost);
    assert NewId(e, tcpHost) == NewId(d, tcpHost) && NewMax(e, tcpHost) == NewMax(d, tcpHost);
    hide DatabasesAgree, NodesInv, HasHost, NodeInserted, NewId, NewMax;
    if !HasHost(d.dataNodes, tcpHost) {
      MetaInserted(d, e, NodeInfo(NewId(d, tcpHost), host, tcpHost), d', e');
    }
  }

  lemma CreateDataAgrees(
    d: Data, g: map<nat, string>, host: string, tcpHost: string, d': Data, e: Data, h: map<nat, string>, e': Data)
    requires Agree(d, e) && NodesInv(d, g) && NodesInv(e, h) && d'.index == e'.index
    requires StrictlySortedById(d'.dataNodes) && StrictlySortedById(e'.dataNodes)
    requires Step(d, CreateDataNode(host, tcpHost), d') && Step(e, CreateDataNode(host, tcpHost), e')
    ensures Agree(d', e')
  {
    SameIdOfHost(d, e, g, h, tcpHost);
    assert NewId(e, tcpHost) == NewId(d, tcpHost) && NewMax(e, tcpHost) == NewMax(d, tcpHost);
    hide DatabasesAgree, NodesInv, HasHost, StrictlySortedById, SortedById, NewId, NewMax;
    if !HasHost(d.dataNodes, tcpHost) {
      assert multiset(d'.dataNodes) == multiset(e'.dataNodes);
      StrictUnique(d'.dataNodes, e'.dataNodes);
    }
  }

  lemma DeleteMetaAgrees(d: Data, id: nat, now: int, d': Data, e: Data, now': int, e': Data)
    requires Agree(d, e) && d'.index == e'.index
    requires Step(d, DeleteMetaNode(id, now), d') && Step(e, DeleteMetaNode(id, now'), e')
    ensures Agree(d', e')
  {
    hide DatabasesAgree, RelinquishAll, Without;
    WithoutAgrees(d.metaNodes, e.metaNodes, id);
    RelinquishAgrees(d.databases, e.databases, id, now, now');
  }

  /** Every entry of the log keeps two replicas in agreement, whatever their clocks and the ways they sort. */
  lemma StepAgrees(
    d: Data, g: map<nat, string>, c: Command, d': Data, e: Data, h: map<nat, string>, c': Command, e': Data)
    requires Agree(d, e) && ClusterInv(d, g) && ClusterInv(e, h)
    requires SameEntry(c, c') && Step(d, c, d') && Step(e, c', e') && d'.index == e'.index
    ensures Agree(d', e')
  {
    match c
    case CreateMetaNode(host, tcpHost) => CreateMetaAgrees(d, g, host, tcpHost, d', e, h, e');
    case CreateDataNode(host, tcpHost) =>
      var g' := StepNodes(d, c, d', g);
      var h' := StepNodes(e, c, e', h);
      CreateDataAgrees(d, g, host, tcpHost, d', e, h, e');
    case DeleteMetaNode(id, now) => DeleteMetaAgrees(d, id, now, d', e, c'.now, e');
    case DeleteDataNode(id) => DeleteDataAgrees(d, id, d', e, e');
    case CreateShardGroup(db, policy, t) => CreateGroupAgrees(d, db, policy, t, d', e, e');
    case DeleteShardGroup(db, policy, gid, now) => DeleteGroupAgrees(d, db, policy, gid, now, d', e, c'.now, e');
  }

  lemma DeleteDataAgrees(d: Data, id: nat, d': Data, e: Data, e': Data)
    requires Agree(d, e) && d'.index == e'.index
    requires Step(d, DeleteDataNode(id), d') && Step(e, DeleteDataNode(id), e')
    ensures Agree(d', e')
  {
    hide DatabasesAgree, Without;
  }

  // ---------------------------------------------------------------- whole logs

  /** Two replicas have applied one log: the same entries with the same indexes. */
  ghost predicate SameLog(states: seq<Data>, commands: seq<Command>, states': seq<Data>, commands': seq<Command>) {
    && Run(states, commands) && Run(states', commands') && |commands'| == |commands|
    && (forall k :: 0 <= k < |commands| ==> SameEntry(commands[k], commands'[k]))
    && (forall k :: 0 <= k < |states| ==> states'[k].index == states[k].index)
  }

  lemma {:induction false} AgreeFrom(
    states: seq<Data>, commands: seq<Command>, g: map<nat, string>,
    states': seq<Data>, commands': seq<Command>, h: map<nat, string>, i: nat, j: nat)
    requires SameLog(states, commands, states', commands') && i <= j < |states|
    requires Agree(states[i], states'[i]) && ClusterInv(states[i], g) && ClusterInv(states'[i], h)
    ensures Agree(states[j], states'[j])
    decreases j - i
  {
    hide Step, Agree, ClusterInv, SameEntry;
    if i == j {
    } else {
      StepAgrees(states[i], g, commands[i], states[i + 1], states'[i], h, commands'[i], states'[i + 1]);
      var g' := RunFrom(states, commands, i, i + 1, g);
      var h' := RunFrom(states', commands', i, i + 1, h);
      AgreeFrom(states, commands, g', states', commands', h', i + 1, j);
    }
  }

  /**
   Replicas that start from one blank metadata and apply one log agree after
   every entry, although each reads its own clock and sorts in its own way.
   */
  lemma ReplicasAgree(
    states: seq<Data>, commands: seq<Command>, states': seq<Data>, commands': seq<Command>, j: nat)
    requires SameLog(states, commands, states', commands') && j < |states|
    requires Blank(states[0]) && states'[0] == states[0]
    ensures Agree(states[j], states'[j])
  {
    BlankInv(states[0]);
    hide Step, ClusterInv, SameEntry;
    AgreeFrom(states, commands, map[], states', commands', map[], 0, j);
  }

  lemma RouteWithin(d: Data, e: Data, l: Place, t: int, hash: nat)
    requires Agree(d, e) && PoliciesOk(e) && ValidPlace(d, l) && ValidPlace(e, l)
    requires Route(PolicyAt(d, l).groups, t, hash).Some?
    ensures Route(PolicyAt(e, l).groups, t, hash) == Route(PolicyAt(d, l).groups, t, hash)
  {
    AgreeAt(d, e, l);
    LiveOnce(e, l, t);
    hide PoliciesOk, OneLiveAt, DatabasesAgree;
    var a, b := PolicyAt(d, l).groups, PolicyAt(e, l).groups;
    var g := GroupAt(a, t).value;
    assert Undated(g) in Shown(a);
    var h :| h in b && Undated(h) == Undated(g);
    var k :| 0 <= k < |b| && b[k] == h;
    RoutedGroup(b, t, k);
  }

  /** Replicas that agree route every point alike. */
  lemma RoutesAgree(d: Data, e: Data, l: Place, t: int, hash: nat)
    requires Agree(d, e) && PoliciesOk(d) && PoliciesOk(e) && ValidPlace(d, l)
    ensures ValidPlace(e, l) && Route(PolicyAt(e, l).groups, t, hash) == Route(PolicyAt(d, l).groups, t, hash)
  {
    AgreeAt(d, e, l);
    if Route(PolicyAt(d, l).groups, t, hash).Some? {
      RouteWithin(d, e, l, t, hash);
    } else if Route(PolicyAt(e, l).groups, t, hash).Some? {
      AgreeBack(d, e);
      RouteWithin(e, d, l, t, hash);
    }
  }

  lemma AgreeBack(d: Data, e: Data)
    requires Agree(d, e)
    ensures Agree(e, d)
  {
    forall i | 0 <= i < |e.databases|
      ensures DatabaseAgrees(e.databases[i], d.databases[i])
    {
      assert DatabaseAgrees(d.databases[i], e.databases[i]);
      var a, b := d.databases[i].policies, e.databases[i].policies;
      assert forall j :: 0 <= j < |a| ==> PolicyAgrees(a[j], b[j]);
    }
  }
}
