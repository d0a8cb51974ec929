/** What deleting a meta node does to the owners of the shards. */
module DeleteProofs {
  import opened Options
  import opened Metadata
  import opened ClusterSpec
  import opened GroupProofs
  import opened ShardProofs

  function Count(owners: seq<nat>, id: nat): nat {
    if owners == [] then 0
    else Count(owners[..|owners| - 1], id) + (if owners[|owners| - 1] == id then 1 else 0)
  }

  /** The owners other than one node, in their order. */
  function Others(owners: seq<nat>, id: nat): seq<nat> {
    if owners == [] then []
    else Others(owners[..|owners| - 1], id) + (if owners[|owners| - 1] == id then [] else [owners[|owners| - 1]])
  }

  lemma {:induction false} CountZero(owners: seq<nat>, id: nat)
    ensures Count(owners, id) == 0 <==> id !in owners
    ensures Count(owners, id) == 0 ==> Others(owners, id) == owners
  {
    if owners == [] {
    } else {
      CountZero(owners[..|owners| - 1], id);
      assert owners == owners[..|owners| - 1] + [owners[|owners| - 1]];
    }
  }

  lemma Snoc(owners: seq<nat>, x: nat, id: nat)
    ensures Count(owners + [x], id) == Count(owners, id) + (if x == id then 1 else 0)
    ensures Others(owners + [x], id) == Others(owners, id) + (if x == id then [] else [x])
    ensures LastIndex(owners + [x], id) == if x == id then |owners| else LastIndex(owners, id)
  {
    assert (owners + [x])[..|owners|] == owners;
  }

  /** Removing the last entry of a node takes one from its count and leaves the other owners in their order. */
  lemma {:induction false} RemoveLast(owners: seq<nat>, id: nat)
    requires LastIndex(owners, id) >= 0
    ensures var k := LastIndex(owners, id);
            var rest := owners[..k] + owners[k + 1..];
            Count(rest, id) == Count(owners, id) - 1 && Others(rest, id) == Others(owners, id)
  {
    var n := |owners| - 1;
    assert owners == owners[..n] + [owners[n]];
    Snoc(owners[..n], owners[n], id);
    hide Count, Others;
    var k := LastIndex(owners, id);
    if owners[n] == id {
      assert owners[..n] + owners[n + 1..] == owners[..n];
      assert Others(owners[..n], id) + [] == Others(owners[..n], id);
    } else {
      RemoveLast(owners[..n], id);
      var rest := owners[..n][..k] + owners[..n][k + 1..];
      Snoc(rest, owners[n], id);
      assert owners[..k] + owners[k + 1..] == rest + [owners[n]];
    }
  }

  lemma RelinquishOwners(s: Shard, id: nat)
    ensures Count(Relinquish(s, id).owners, id) == if id in s.owners then Count(s.owners, id) - 1 else 0
    ensures Others(Relinquish(s, id).owners, id) == Others(s.owners, id)
    ensures Relinquish(s, id).id == s.id
  {
    CountZero(s.owners, id);
    if LastIndex(s.owners, id) >= 0 {
      RemoveLast(s.owners, id);
    }
  }

  lemma {:induction false} NoDuplicatesCount(owners: seq<nat>, id: nat)
    requires NoDuplicates(owners)
    ensures Count(owners, id) <= 1
  {
    if owners == [] {
    } else {
      NoDuplicatesCount(owners[..|owners| - 1], id);
      CountZero(owners[..|owners| - 1], id);
    }
  }

  /**
   After the node is deleted, a shard still lists it exactly when it listed it
   more than once before.  The other owners stay, in their order.
   */
  lemma DeletedOwners(d: Data, id: nat, now: int, d': Data, a: Loc)
    requires Step(d, DeleteMetaNode(id, now), d') && |Without(d.metaNodes, id)| < |d.metaNodes|
    requires ValidLoc(d, a)
    ensures ValidLoc(d', a) && ShardAt(d', a).id == ShardAt(d, a).id
    ensures id in ShardAt(d', a).owners <==> Count(ShardAt(d, a).owners, id) > 1
    ensures Others(ShardAt(d', a).owners, id) == Others(ShardAt(d, a).owners, id)
  {
    var g := PolicyAt(d, a.l).groups[a.k];
    assert PolicyAt(d', a.l) == RelinquishPolicy(PolicyAt(d, a.l), id, now);
    assert PolicyAt(d', a.l).groups[a.k] == RelinquishGroup(g, id, now);
    assert ShardAt(d', a) == Relinquish(g.shards[a.s], id);
    RelinquishOwners(ShardAt(d, a), id);
    CountZero(ShardAt(d, a).owners, id);
    CountZero(ShardAt(d', a).owners, id);
  }

  /** With the distinct owners that placement gives, no shard lists the node any more and only the node is gone. */
  lemma DeletedNodeIsGone(d: Data, id: nat, now: int, d': Data, a: Loc)
    requires Step(d, DeleteMetaNode(id, now), d') && |Without(d.metaNodes, id)| < |d.metaNodes|
    requires PoliciesOk(d) && ValidLoc(d, a)
    ensures ValidLoc(d', a) && id !in ShardAt(d', a).owners
    ensures ShardAt(d', a).owners == Others(ShardAt(d, a).owners, id)
  {
    DeletedOwners(d, id, now, d', a);
    assert PolicyOk(d, a.l);
    assert GroupOk(PolicyAt(d, a.l).groups[a.k], PolicyAt(d, a.l).duration, d.maxShardGroupID, d.maxShardID);
    NoDuplicatesCount(ShardAt(d, a).owners, id);
    CountZero(ShardAt(d', a).owners, id);
  }

  /**
   A group is deleted afterwards if and only if it was before, or none of its
   shards has an owner other than the node; then the time of deletion is now.
   Its id and its window stay.
   */
  lemma DeletedGroupIff(d: Data, id: nat, now: int, d': Data, l: Place, k: nat)
    requires Step(d, DeleteMetaNode(id, now), d') && |Without(d.metaNodes, id)| < |d.metaNodes|
    requires PoliciesOk(d) && ValidPlace(d, l) && k < |PolicyAt(d, l).groups|
    ensures ValidPlace(d', l) && k < |PolicyAt(d', l).groups|
    ensures Deleted(PolicyAt(d', l).groups[k]) <==>
            || Deleted(PolicyAt(d, l).groups[k])
            || forall s :: 0 <= s < |PolicyAt(d, l).groups[k].shards| ==>
                 Others(PolicyAt(d, l).groups[k].shards[s].owners, id) == []
    ensures var g, g' := PolicyAt(d, l).groups[k], PolicyAt(d', l).groups[k];
            && g'.id == g.id && g'.start == g.start && g'.end == g.end
            && g'.deletedAt == if forall s :: 0 <= s < |g.shards| ==> Others(g.shards[s].owners, id) == []
                               then Some(now) else g.deletedAt
  {
    var g := PolicyAt(d, l).groups[k];
    assert PolicyAt(d', l) == RelinquishPolicy(PolicyAt(d, l), id, now);
    var g' := PolicyAt(d', l).groups[k];
    assert g' == RelinquishGroup(g, id, now);
    forall s | 0 <= s < |g.shards|
      ensures g'.shards[s].owners == Others(g.shards[s].owners, id)
    {
      DeletedNodeIsGone(d, id, now, d', Loc(l, k, s));
    }
  }
}
