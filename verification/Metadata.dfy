/** The cluster metadata: nodes, databases, retention policies, shard groups and shards. */
module Metadata {
  import opened Options

  datatype NodeInfo = NodeInfo(id: nat, host: string, tcpHost: string)

  datatype Shard = Shard(id: nat, owners: seq<nat>)

  datatype Group = Group(id: nat, start: int, end: int, deletedAt: Option<int>, shards: seq<Shard>)

  datatype Policy = Policy(name: string, replicaN: nat, duration: int, groups: seq<Group>)

  datatype Database = Database(name: string, policies: seq<Policy>)

  datatype Data = Data(
    databases: seq<Database>,
    metaNodes: seq<NodeInfo>,
    dataNodes: seq<NodeInfo>,
    maxNodeID: nat,
    maxShardGroupID: nat,
    maxShardID: nat,
    index: nat)

  datatype Outcome = Done | ErrNodeExists | ErrNodeNotFound | ErrDatabaseNotFound | ErrPolicyNotFound

  predicate Deleted(g: Group) {
    g.deletedAt.Some?
  }

  predicate Contains(g: Group, t: int) {
    g.start <= t < g.end
  }

  predicate Overlaps(g: Group, min: int, max: int) {
    g.start <= max && g.end > min
  }

  /** A group overlaps a range exactly when some instant is in both. */
  lemma OverlapsIff(g: Group, min: int, max: int)
    requires g.start < g.end && min <= max
    ensures Overlaps(g, min, max) <==> exists t :: min <= t <= max && Contains(g, t)
  {
    if Overlaps(g, min, max) {
      var t := if g.start < min then min else g.start;
      assert Contains(g, t);
    }
  }

  /** The live group that holds t, the first one if there were several. */
  function GroupAt(groups: seq<Group>, t: int): (r: Option<Group>)
    ensures r.Some? ==> r.value in groups && Contains(r.value, t) && !Deleted(r.value)
    ensures r.None? <==> forall g :: g in groups ==> !Contains(g, t) || Deleted(g)
  {
    if groups == [] then None
    else if Contains(groups[0], t) && !Deleted(groups[0]) then Some(groups[0])
    else GroupAt(groups[1..], t)
  }

  ghost predicate NoDuplicates<T>(s: seq<T>) {
    forall i, j :: 0 <= i < j < |s| ==> s[i] != s[j]
  }
}
