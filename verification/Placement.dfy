/** The round-robin assignment of data nodes to the shards of a new shard group. */
module Placement {
  import opened Metadata
  import opened Times

  /** At least one replica, but no more replicas than nodes. */
  function Clamp(replicaN: nat, n: nat): (r: nat)
    requires n > 0
    ensures 1 <= r <= n
  {
    if replicaN == 0 then 1 else if replicaN > n then n else replicaN
  }

  /** The node that gets replica j of shard i. */
  function Seat(nodes: seq<NodeInfo>, first: nat, replicaN: nat, i: nat, j: nat): nat
    requires nodes != []
  {
    nodes[(first + i * replicaN + j) % |nodes|].id
  }

  /** Shards with fresh consecutive ids and no owners yet. */
  method GenerateShards(shardN: nat, maxShardID: nat) returns (shards: seq<Shard>, max: nat)
    ensures max == maxShardID + shardN && |shards| == shardN
    ensures forall i :: 0 <= i < shardN ==> shards[i] == Shard(maxShardID + 1 + i, [])
  {
    shards := [];
    max := maxShardID;
    for i := 0 to shardN
      invariant max == maxShardID + i && |shards| == i
      invariant forall k :: 0 <= k < i ==> shards[k] == Shard(maxShardID + 1 + k, [])
    {
      max := max + 1;
      shards := shards + [Shard(max, [])];
    }
  }

  /** The owners of one shard, taken from the node list from a running index on. */
  method TakeOwners(nodes: seq<NodeInfo>, start: nat, replicaN: nat) returns (owners: seq<nat>, next: nat)
    requires nodes != []
    ensures next == start + replicaN && |owners| == replicaN
    ensures forall j :: 0 <= j < replicaN ==> owners[j] == nodes[(start + j) % |nodes|].id
  {
    owners := [];
    next := start;
    for j := 0 to replicaN
      invariant next == start + j && |owners| == j
      invariant forall k :: 0 <= k < j ==> owners[k] == nodes[(start + k) % |nodes|].id
    {
      owners := owners + [nodes[next % |nodes|].id];
      next := next + 1;
    }
  }

  /** Deals the nodes out to the shards, starting from a place given by the metadata index. */
  method AssignOwners(shards: seq<Shard>, nodes: seq<NodeInfo>, index: nat, replicaN: nat) returns (r: seq<Shard>)
    requires nodes != []
    ensures |r| == |shards|
    ensures forall i :: 0 <= i < |r| ==> r[i].id == shards[i].id && |r[i].owners| == replicaN
    ensures forall i, j :: 0 <= i < |r| && 0 <= j < replicaN ==>
              r[i].owners[j] == Seat(nodes, index % |nodes|, replicaN, i, j)
  {
    var nodeIndex := index % |nodes|;
    r := [];
    for i := 0 to |shards|
      invariant nodeIndex == index % |nodes| + i * replicaN && |r| == i
      invariant forall k :: 0 <= k < i ==> r[k].id == shards[k].id && |r[k].owners| == replicaN
      invariant forall k, j :: 0 <= k < i && 0 <= j < replicaN ==>
                  r[k].owners[j] == Seat(nodes, index % |nodes|, replicaN, k, j)
    {
      var owners, next := TakeOwners(nodes, nodeIndex, replicaN);
      assert (i + 1) * replicaN == i * replicaN + replicaN;
      r := r + [Shard(shards[i].id, owners)];
      nodeIndex := next;
    }
  }

  // ---------------------------------------------------------------- what the assignment achieves

  ghost predicate DistinctNodeIds(nodes: seq<NodeInfo>) {
    forall i, j :: 0 <= i < j < |nodes| ==> nodes[i].id != nodes[j].id
  }

  /** The result of AssignOwners, as a predicate. */
  ghost predicate Placed(shards: seq<Shard>, nodes: seq<NodeInfo>, first: nat, replicaN: nat) {
    && nodes != []
    && (forall i :: 0 <= i < |shards| ==> |shards[i].owners| == replicaN)
    && (forall i, j :: 0 <= i < |shards| && 0 <= j < replicaN ==>
          shards[i].owners[j] == Seat(nodes, first, replicaN, i, j))
  }

  /** Two places on a circle of n that are less than n apart and equal are one place. */
  lemma SameOnCircle(first: int, a: int, b: int, n: int)
    requires n > 0 && 0 <= a <= b < n
    requires (first + a) % n == (first + b) % n
    ensures a == b
  {
    var q, q' := (first + a) / n, (first + b) / n;
    assert first + a == n * q + (first + a) % n;
    assert first + b == n * q' + (first + b) % n;
    assert b - a == n * (q' - q);
    Multiples(n, q' - q);
  }

  /** From any place on a circle of n, every place is less than n steps away. */
  lemma CirclePlace(first: nat, n: nat, i: nat) returns (j: nat)
    requires i < n
    ensures j < n && (first + j) % n == i
  {
    var r, q := first % n, first / n;
    j := if i >= r then i - r else i + n - r;
    assert first == n * q + r;
    if i >= r {
      Euclid(first + j, n, q, i);
    } else {
      assert n * (q + 1) == n * q + n;
      Euclid(first + j, n, q + 1, i);
    }
  }

  lemma SeatNumber(replicaN: nat, shardN: nat, i: nat, j: nat)
    requires i < shardN && j < replicaN
    ensures i * replicaN + j < shardN * replicaN
    ensures (i * replicaN + j) / replicaN == i && (i * replicaN + j) % replicaN == j
  {
    Euclid(i * replicaN + j, replicaN, i, j);
    assert (shardN - 1 - i) * replicaN >= 0;
    assert shardN * replicaN == (shardN - 1 - i) * replicaN + i * replicaN + replicaN;
  }

  /** Two seats of the group with one node are one seat. */
  lemma SeatUnique(nodes: seq<NodeInfo>, first: nat, replicaN: nat, shardN: nat, i: nat, j: nat, i': nat, j': nat)
    requires nodes != [] && DistinctNodeIds(nodes) && shardN * replicaN <= |nodes|
    requires i < shardN && j < replicaN && i' < shardN && j' < replicaN
    requires Seat(nodes, first, replicaN, i, j) == Seat(nodes, first, replicaN, i', j')
    ensures i == i' && j == j'
  {
    var a, b, n := i * replicaN + j, i' * replicaN + j', |nodes|;
    SeatNumber(replicaN, shardN, i, j);
    SeatNumber(replicaN, shardN, i', j');
    assert (first + a) % n == (first + b) % n;
    if a <= b {
      SameOnCircle(first, a, b, n);
    } else {
      SameOnCircle(first, b, a, n);
    }
  }

  lemma ShardCount(n: nat, replicaN: nat)
    requires 1 <= replicaN <= n
    ensures n / replicaN >= 1 && n / replicaN * replicaN <= n < (n / replicaN + 1) * replicaN
  {
    var q := n / replicaN;
    assert n == replicaN * q + n % replicaN;
    assert q * replicaN == replicaN * q && (q + 1) * replicaN == replicaN * q + replicaN;
    Multiples(replicaN, q);
  }

  /**
   The owners that a replication factor asks for: as many per shard, and as many
   shards as there are nodes for.  Without a factor every shard has one owner, and
   with more replicas than nodes every node owns the one shard.
   */
  ghost predicate Replicated(shards: seq<Shard>, nodes: seq<NodeInfo>, replicaN: nat) {
    && (1 <= replicaN <= |nodes| ==>
          && (forall i :: 0 <= i < |shards| ==> |shards[i].owners| == replicaN)
          && |shards| * replicaN <= |nodes| < (|shards| + 1) * replicaN)
    && (replicaN > |nodes| ==>
          && |shards| == 1 && |shards[0].owners| == |nodes|
          && forall k :: 0 <= k < |nodes| ==> nodes[k].id in shards[0].owners)
    && (replicaN == 0 ==>
          |shards| == |nodes| && forall i :: 0 <= i < |shards| ==> |shards[i].owners| == 1)
  }

  /** The owners, shard after shard, are the nodes one after the other from a first one on. */
  ghost predicate RoundRobin(shards: seq<Shard>, nodes: seq<NodeInfo>, first: nat)
    requires nodes != []
  {
    forall i, j :: 0 <= i < |shards| && 0 <= j < |shards[i].owners| ==>
      shards[i].owners[j] == nodes[(first + i * |shards[i].owners| + j) % |nodes|].id
  }

  lemma PlacedInTurn(shards: seq<Shard>, nodes: seq<NodeInfo>, first: nat, replicaN: nat)
    requires Placed(shards, nodes, first, replicaN)
    ensures RoundRobin(shards, nodes, first)
  {
    forall i, j | 0 <= i < |shards| && 0 <= j < |shards[i].owners|
      ensures shards[i].owners[j] == nodes[(first + i * |shards[i].owners| + j) % |nodes|].id
    {
      assert shards[i].owners[j] == Seat(nodes, first, replicaN, i, j);
    }
  }

  lemma PlacedReplicas(shards: seq<Shard>, nodes: seq<NodeInfo>, first: nat, replicaN: nat)
    requires nodes != [] && Placed(shards, nodes, first, Clamp(replicaN, |nodes|))
    requires |shards| == |nodes| / Clamp(replicaN, |nodes|)
    ensures Replicated(shards, nodes, replicaN)
  {
    var n := |nodes|;
    ShardCount(n, Clamp(replicaN, n));
    if replicaN == 0 {
      Euclid(n, 1, n, 0);
    } else if replicaN > n {
      Euclid(n, n, 1, 0);
      hide Seat;
      forall k | 0 <= k < n
        ensures nodes[k].id in shards[0].owners
      {
        WholeCircle(shards, nodes, first, k);
      }
    }
  }

  /** A shard with as many owners as there are nodes is owned by each of them. */
  lemma WholeCircle(shards: seq<Shard>, nodes: seq<NodeInfo>, first: nat, k: nat)
    requires Placed(shards, nodes, first, |nodes|) && shards != [] && k < |nodes|
    ensures nodes[k].id in shards[0].owners
  {
    var j := CirclePlace(first, |nodes|, k);
    assert shards[0].owners[j] == Seat(nodes, first, |nodes|, 0, j);
    assert 0 * |nodes| == 0;
  }

  /**
   No node holds two replicas in one group: over all shards of the group, all
   owners are different nodes, whatever the starting place.
   */
  lemma OwnersAllDifferent(
    shards: seq<Shard>, nodes: seq<NodeInfo>, first: nat, replicaN: nat, i: nat, j: nat, i': nat, j': nat)
    requires Placed(shards, nodes, first, replicaN) && DistinctNodeIds(nodes)
    requires 1 <= replicaN <= |nodes| && |shards| == |nodes| / replicaN
    requires i < |shards| && j < replicaN && i' < |shards| && j' < replicaN
    ensures shards[i].owners[j] == shards[i'].owners[j'] <==> i == i' && j == j'
  {
    ShardCount(|nodes|, replicaN);
    if shards[i].owners[j] == shards[i'].owners[j'] {
      SeatUnique(nodes, first, replicaN, |shards|, i, j, i', j');
    }
  }

  /** Every owner is a data node. */
  lemma OwnersAreNodes(shards: seq<Shard>, nodes: seq<NodeInfo>, first: nat, replicaN: nat, i: nat, j: nat)
    requires Placed(shards, nodes, first, replicaN) && i < |shards| && j < replicaN
    ensures exists k :: 0 <= k < |nodes| && nodes[k].id == shards[i].owners[j]
  {
    var k := (first + i * replicaN + j) % |nodes|;
    assert nodes[k].id == Seat(nodes, first, replicaN, i, j);
  }
}
