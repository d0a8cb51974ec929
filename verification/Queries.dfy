/** The lookup of shards by time range over one metadata snapshot. */
module Queries {
  import opened Options
  import opened Metadata
  import opened ClusterSpec
  import opened GroupProofs
  import opened ShardProofs
  import opened Routing

  /** What a query reads from. */
  datatype Source = Measurement(db: string, policy: string) | OtherSource

  datatype Answer = Answer(shards: seq<Shard>) | Refused(why: Outcome) | BadSource

  predicate InRange(g: Group, min: int, max: int) {
    !Deleted(g) && Overlaps(g, min, max)
  }

  /** The positions of the live groups that overlap the range, in order. */
  method ShardGroupsByTimeRange(d: Data, l: Place, min: int, max: int) returns (ks: seq<nat>)
    requires ValidPlace(d, l)
    ensures forall i :: 0 <= i < |ks| ==>
              && ks[i] < |PolicyAt(d, l).groups|
              && var g := PolicyAt(d, l).groups[ks[i]]; g.deletedAt.None? && g.start <= max && g.end > min
    ensures forall k :: 0 <= k < |PolicyAt(d, l).groups| ==>
              var g := PolicyAt(d, l).groups[k]; g.deletedAt.None? && g.start <= max && g.end > min ==> k in ks
    ensures forall i, j :: 0 <= i < j < |ks| ==> ks[i] < ks[j]
  {
    var groups := PolicyAt(d, l).groups;
    ks := [];
    for k := 0 to |groups|
      invariant forall i :: 0 <= i < |ks| ==> ks[i] < k && InRange(groups[ks[i]], min, max)
      invariant forall i :: 0 <= i < k && InRange(groups[i], min, max) ==> i in ks
      invariant forall i, j :: 0 <= i < j < |ks| ==> ks[i] < ks[j]
    {
      if Deleted(groups[k]) || !Overlaps(groups[k], min, max) {
        continue;
      }
      ks := ks + [k];
    }
  }

  /** The source asks for the shard at a. */
  predicate Asks(d: Data, src: Source, min: int, max: int, a: Loc) {
    && src.Measurement?
    && FindPolicy(d, src.db, src.policy) == Some(a.l)
    && ValidLoc(d, a)
    && InRange(PolicyAt(d, a.l).groups[a.k], min, max)
  }

  /** Why a source cannot be answered, if so. */
  function Problem(d: Data, src: Source): (r: Option<Answer>)
    ensures src.OtherSource? <==> r == Some(BadSource)
    ensures src.Measurement? && (forall i :: 0 <= i < |d.databases| ==> d.databases[i].name != src.db) ==>
              r == Some(Refused(ErrDatabaseNotFound))
    ensures r.None? <==> src.Measurement? && FindPolicy(d, src.db, src.policy).Some?
  {
    if src.OtherSource? then Some(BadSource)
    else if FindPolicy(d, src.db, src.policy).Some? then None
    else if DbIndex(d.databases, src.db) == |d.databases| then Some(Refused(ErrDatabaseNotFound))
    else Some(Refused(ErrPolicyNotFound))
  }

  /** A source asks for the shards of the live groups of its policy that share an instant with the range. */
  lemma AsksIff(d: Data, src: Source, min: int, max: int, a: Loc)
    requires PoliciesOk(d) && ValidLoc(d, a) && min <= max
    ensures Asks(d, src, min, max, a) <==>
            && src.Measurement? && FindPolicy(d, src.db, src.policy) == Some(a.l)
            && PolicyAt(d, a.l).groups[a.k].deletedAt.None?
            && exists t :: min <= t <= max && Contains(PolicyAt(d, a.l).groups[a.k], t)
  {
    assert PolicyOk(d, a.l);
    var g := PolicyAt(d, a.l).groups[a.k];
    assert g.start < g.end;
    hide PoliciesOk, FindPolicy;
    OverlapsIff(g, min, max);
  }

  predicate Wanted(d: Data, sources: seq<Source>, min: int, max: int, a: Loc) {
    exists q :: 0 <= q < |sources| && Asks(d, sources[q], min, max, a)
  }

  function Resolve(d: Data, order: seq<Loc>): (r: seq<Shard>)
    requires forall i :: 0 <= i < |order| ==> ValidLoc(d, order[i])
    ensures |r| == |order| && forall i :: 0 <= i < |r| ==> r[i] == ShardAt(d, order[i])
  {
    seq(|order|, i requires 0 <= i < |order| => ShardAt(d, order[i]))
  }

  /** The answer lists every wanted shard once, in no particular order. */
  ghost predicate Lists(d: Data, sources: seq<Source>, min: int, max: int, order: seq<Loc>) {
    && NoDuplicates(order)
    && forall a: Loc :: a in order <==> Wanted(d, sources, min, max, a)
  }

  method CollectSource(d: Data, src: Source, l: Place, min: int, max: int, m: set<Loc>) returns (m': set<Loc>)
    requires src.Measurement? && FindPolicy(d, src.db, src.policy) == Some(l)
    ensures forall a: Loc :: a in m' <==> a in m || Asks(d, src, min, max, a)
  {
    hide FindPolicy;
    var ks := ShardGroupsByTimeRange(d, l, min, max);
    var groups := PolicyAt(d, l).groups;
    m' := m;
    for i := 0 to |ks|
      invariant forall a: Loc :: a in m' <==> a in m || (ValidLoc(d, a) && a.l == l && a.k in ks[..i])
    {
      var shards := groups[ks[i]].shards;
      for s := 0 to |shards|
        invariant forall a: Loc :: a in m' <==>
                    a in m || (ValidLoc(d, a) && a.l == l && (a.k in ks[..i] || (a.k == ks[i] && a.s < s)))
      {
        m' := m' + {Loc(l, ks[i], s)};
      }
      assert ks[..i + 1] == ks[..i] + [ks[i]];
    }
    assert ks[..|ks|] == ks;
  }

  method ShardsByTimeRange(d: Data, sources: seq<Source>, min: int, max: int) returns (r: Answer, ghost order: seq<Loc>)
    ensures r.Answer? ==>
              && Lists(d, sources, min, max, order)
              && (forall i :: 0 <= i < |order| ==> ValidLoc(d, order[i])) && r.shards == Resolve(d, order)
    ensures r.Answer? <==> forall q :: 0 <= q < |sources| ==> Problem(d, sources[q]).None?
    ensures !r.Answer? ==> exists q :: 0 <= q < |sources| && Problem(d, sources[q]) == Some(r)
                                       && forall k :: 0 <= k < q ==> Problem(d, sources[k]).None?
  {
    hide Asks, FindPolicy;
    var m: set<Loc> := {};
    order := [];
    for q := 0 to |sources|
      invariant forall a: Loc :: a in m <==> Wanted(d, sources[..q], min, max, a)
      invariant forall k :: 0 <= k < q ==> Problem(d, sources[k]).None?
    {
      if sources[q].OtherSource? {
        return BadSource, [];
      }
      var l := FindPolicy(d, sources[q].db, sources[q].policy);
      if l.None? {
        var i := DbIndex(d.databases, sources[q].db);
        return Refused(if i == |d.databases| then ErrDatabaseNotFound else ErrPolicyNotFound), [];
      }
      ghost var before := m;
      m := CollectSource(d, sources[q], l.value, min, max, m);
      forall a: Loc
        ensures a in m <==> Wanted(d, sources[..q + 1], min, max, a)
      {
        WantedSnoc(d, sources, q, min, max, a);
      }
    }
    assert sources[..|sources|] == sources;
    forall a: Loc | a in m
      ensures ValidLoc(d, a)
    {
      WantedValid(d, sources, min, max, a);
    }
    var shards;
    shards, order := ReadOut(d, m);
    r := Answer(shards);
  }

  lemma WantedSnoc(d: Data, sources: seq<Source>, q: nat, min: int, max: int, a: Loc)
    requires q < |sources|
    ensures Wanted(d, sources[..q + 1], min, max, a) <==>
            Wanted(d, sources[..q], min, max, a) || Asks(d, sources[q], min, max, a)
  {
    hide Asks;
    if Wanted(d, sources[..q], min, max, a) {
      var k :| 0 <= k < q && Asks(d, sources[..q][k], min, max, a);
      assert sources[..q + 1][k] == sources[..q][k];
    }
    if Asks(d, sources[q], min, max, a) {
      assert sources[..q + 1][q] == sources[q];
    }
    if Wanted(d, sources[..q + 1], min, max, a) {
      var k :| 0 <= k < q + 1 && Asks(d, sources[..q + 1][k], min, max, a);
      assert k < q ==> sources[..q][k] == sources[..q + 1][k];
    }
  }

  lemma WantedValid(d: Data, sources: seq<Source>, min: int, max: int, a: Loc)
    requires Wanted(d, sources, min, max, a)
    ensures ValidLoc(d, a)
  {
  }

  /** Reads a set of shards out in an arbitrary order. */
  method ReadOut(d: Data, m: set<Loc>) returns (shards: seq<Shard>, ghost order: seq<Loc>)
    requires forall a: Loc :: a in m ==> ValidLoc(d, a)
    ensures NoDuplicates(order) && forall a: Loc :: a in order <==> a in m
    ensures (forall i :: 0 <= i < |order| ==> ValidLoc(d, order[i])) && shards == Resolve(d, order)
  {
    hide ValidLoc;
    shards, order := [], [];
    var left := m;
    while left != {}
      invariant left <= m
      invariant NoDuplicates(order) && forall a: Loc :: a in order <==> a in m && a !in left
      invariant |shards| == |order|
      invariant forall i :: 0 <= i < |order| ==> ValidLoc(d, order[i]) && shards[i] == ShardAt(d, order[i])
      decreases left
    {
      var a :| a in left;
      left := left - {a};
      shards := shards + [ShardAt(d, a)];
      order := order + [a];
    }
  }

  predicate Finds(d: Data, a: Loc, id: nat) {
    ValidLoc(d, a) && ShardAt(d, a).id == id
  }

  /**
   A range that holds t finds the shard that t is routed to, at exactly one
   position n of the answer.  The snapshot may be any in which the group is live.
   */
  lemma ReadFindsRouted(
    d: Data, sources: seq<Source>, min: int, max: int, order: seq<Loc>, q: nat, l: Place, t: int, hash: nat, id: nat)
    returns (n: nat)
    requires PoliciesOk(d) && UniqueShards(d) && Lists(d, sources, min, max, order)
    requires q < |sources| && sources[q].Measurement? && FindPolicy(d, sources[q].db, sources[q].policy) == Some(l)
    requires min <= t <= max && Route(PolicyAt(d, l).groups, t, hash) == Some(id)
    ensures n < |order| && Finds(d, order[n], id)
    ensures forall i :: 0 <= i < |order| && Finds(d, order[i], id) ==> i == n
  {
    hide FindPolicy, PoliciesOk;
    var groups := PolicyAt(d, l).groups;
    var g := GroupAt(groups, t).value;
    var k :| 0 <= k < |groups| && groups[k] == g;
    var a := Loc(l, k, hash % |g.shards|);
    assert ValidLoc(d, a) && ShardAt(d, a).id == id;
    assert Asks(d, sources[q], min, max, a);
    assert a in order;
    n :| 0 <= n < |order| && order[n] == a;
  }
}
