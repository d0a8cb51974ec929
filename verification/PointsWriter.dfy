/** The routing of a batch of points to shards, creating shard groups on demand. */
module PointsWriter {
  import opened Options
  import opened Metadata
  import opened Times
  import opened ClusterSpec
  import opened GroupProofs
  import opened ShardProofs
  import opened Routing
  import opened ClusterObject
  import opened ShardRequests
  import opened Queries

  /** A point: its time, the hash of its series key, and what is written. */
  datatype Point = Point(time: int, hash: nat, payload: seq<int>)

  class ShardMapping {
    var points: map<nat, seq<Point>>
    var shards: map<nat, Shard>

    constructor ()
      ensures points == map[] && shards == map[]
    {
      points, shards := map[], map[];
    }

    method MapPoint(shard: Shard, p: Point)
      modifies this
      ensures points == old(points)[shard.id := (if shard.id in old(points) then old(points)[shard.id] else []) + [p]]
      ensures shards == old(shards)[shard.id := shard]
    {
      assert [] + [p] == [p];
      if shard.id !in points {
        points := points[shard.id := [p]];
      } else {
        points := points[shard.id := points[shard.id] + [p]];
      }
      shards := shards[shard.id := shard];
    }
  }

  function RangeOf(t: int, duration: int): TimeRange {
    From(Truncate(t, duration))
  }

  /** NilGroup stands for the crash on a missing group. */
  datatype MapResult = Mapped | Failed(why: Outcome) | NilGroup

  /** What decides where points go: the recorded groups, and the length of a window. */
  datatype Plan = Plan(ranges: Ranges, duration: int) {
    predicate Has(p: Point) {
      RangeOf(p.time, duration) in ranges
    }

    function At(p: Point): Option<Group>
      requires Has(p)
    {
      ranges[RangeOf(p.time, duration)]
    }

    /** The shard that a point is sent to. */
    function Target(p: Point): Option<Shard> {
      if Has(p) && At(p).Some? && At(p).value.shards != [] then Some(ShardFor(At(p).value, p.hash)) else None
    }

    function Dest(p: Point): Option<nat> {
      if Target(p).Some? then Some(Target(p).value.id) else None
    }
  }

  /** The points for one shard, in the order of the request. */
  function Routed(points: seq<Point>, plan: Plan, id: nat): seq<Point> {
    if points == [] then []
    else
      var p := points[|points| - 1];
      Routed(points[..|points| - 1], plan, id) + (if plan.Dest(p) == Some(id) then [p] else [])
  }

  /** Some point is sent to the shard, as the plan shows it. */
  ghost predicate IsTarget(points: seq<Point>, plan: Plan, shard: Shard) {
    exists i :: 0 <= i < |points| && plan.Target(points[i]) == Some(shard)
  }

  ghost predicate TargetsAll(points: seq<Point>, plan: Plan, shards: map<nat, Shard>) {
    forall id :: id in shards ==> IsTarget(points, plan, shards[id])
  }

  ghost predicate SendsAll(points: seq<Point>, plan: Plan, m: map<nat, seq<Point>>) {
    forall i :: 0 <= i < |points| ==> plan.Dest(points[i]).Some? && plan.Dest(points[i]).value in m
  }

  ghost predicate ListsAll(points: seq<Point>, plan: Plan, m: map<nat, seq<Point>>) {
    forall id :: id in m ==> m[id] == Routed(points, plan, id) && m[id] != []
  }

  /** The mapping sends exactly these points to their shards. */
  ghost predicate MapsAll(points: seq<Point>, plan: Plan, m: map<nat, seq<Point>>, shards: map<nat, Shard>) {
    && m.Keys == shards.Keys && (forall id :: id in shards ==> shards[id].id == id)
    && SendsAll(points, plan, m) && ListsAll(points, plan, m) && TargetsAll(points, plan, shards)
  }

  /** The points at some positions of a list, in that order. */
  ghost predicate Picked(points: seq<Point>, at: seq<nat>, r: seq<Point>) {
    && |at| == |r|
    && (forall k :: 0 <= k < |at| ==> at[k] < |points| && r[k] == points[at[k]])
    && (forall j, k :: 0 <= j < k < |at| ==> at[j] < at[k])
  }

  /** A shard's list has exactly the points sent there, in the order of the request. */
  lemma {:induction false} RoutedInOrder(points: seq<Point>, plan: Plan, id: nat) returns (at: seq<nat>)
    ensures Picked(points, at, Routed(points, plan, id))
    ensures forall i :: 0 <= i < |points| ==> (i in at <==> plan.Dest(points[i]) == Some(id))
  {
    if points == [] {
      at := [];
    } else {
      hide Plan.Dest;
      var n := |points| - 1;
      var before := RoutedInOrder(points[..n], plan, id);
      at := before + (if plan.Dest(points[n]) == Some(id) then [n] else []);
      forall i | 0 <= i < n
        ensures i in at <==> plan.Dest(points[i]) == Some(id)
      {
        assert points[..n][i] == points[i];
      }
    }
  }

  /** Every occurrence of a point in the request is in the list of its own shard, and in no other list. */
  lemma {:induction false} RoutedCounts(points: seq<Point>, plan: Plan, id: nat, p: Point)
    ensures multiset(Routed(points, plan, id))[p] == if plan.Dest(p) == Some(id) then multiset(points)[p] else 0
  {
    if points == [] {
    } else {
      var n := |points| - 1;
      assert points == points[..n] + [points[n]];
      RoutedCounts(points[..n], plan, id, p);
    }
  }

  // ---------------------------------------------------------------- mapping the points

  lemma TruncateTwice(t: int, d: int)
    requires d > 0
    ensures Truncate(Truncate(t, d), d) == Truncate(t, d)
  {
    TruncateUnique(Truncate(t, d), d, Truncate(t, d));
  }

  /** Instants of one window find one group. */
  lemma WindowGroup(d: Data, l: Place, t: int)
    requires Ready(d) && ValidPlace(d, l)
    ensures PolicyAt(d, l).duration > 0
    ensures GroupAt(PolicyAt(d, l).groups, Truncate(t, PolicyAt(d, l).duration)) == GroupAt(PolicyAt(d, l).groups, t)
    ensures var g := GroupAt(PolicyAt(d, l).groups, t); g.Some? ==> g.value.shards != []
  {
    ReadyParts(d);
    assert PolicyOk(d, l);
    var groups, duration := PolicyAt(d, l).groups, PolicyAt(d, l).duration;
    assert forall i :: 0 <= i < |groups| ==> GroupOk(groups[i], duration, d.maxShardGroupID, d.maxShardID);
    hide Truncate, PoliciesOk, Ready, UniqueShards;
    TruncateTwice(t, duration);
    SameGroupInWindow(groups, duration, t, Truncate(t, duration));
    var g := GroupAt(groups, t);
    if g.Some? {
      var i :| 0 <= i < |groups| && groups[i] == g.value;
      assert GroupOk(groups[i], duration, d.maxShardGroupID, d.maxShardID);
    }
  }

  /** The group seen for a point's window is the group of the point itself, and so decides where the point goes. */
  lemma SeenRoutes(log: Log, l: Place, k: int, plan: Plan, p: Point)
    requires 0 <= k < |log.states| && Ready(log.states[k]) && plan.Has(p)
    requires SeenAt(log, l, k, RangeOf(p.time, plan.duration).start, plan.At(p))
    requires PolicyAt(log.states[k], l).duration == plan.duration
    ensures plan.At(p) == GroupAt(PolicyAt(log.states[k], l).groups, p.time)
    ensures plan.Dest(p) == Route(PolicyAt(log.states[k], l).groups, p.time, p.hash)
  {
    hide Ready, Truncate;
    WindowGroup(log.states[k], l, p.time);
  }

  /** One more point keeps the mapping right. */
  lemma MapsOneMore(
    points: seq<Point>, plan: Plan, m: map<nat, seq<Point>>, shards: map<nat, Shard>, p: Point, shard: Shard)
    requires MapsAll(points, plan, m, shards) && plan.Target(p) == Some(shard)
    requires shard.id !in m ==> Routed(points, plan, shard.id) == []
    ensures MapsAll(points + [p], plan,
                    m[shard.id := (if shard.id in m then m[shard.id] else []) + [p]], shards[shard.id := shard])
  {
    assert plan.Dest(p) == Some(shard.id);
    hide Routed, Plan.Dest, Plan.Target, TargetsAll, SendsAll, ListsAll;
    TargetsOneMore(points, plan, shards, p, shard);
    var list := (if shard.id in m then m[shard.id] else []) + [p];
    SendsOneMore(points, plan, m, p, shard.id, list);
    ListsOneMore(points, plan, m, p, shard.id, list);
  }

  lemma SendsOneMore(points: seq<Point>, plan: Plan, m: map<nat, seq<Point>>, p: Point, id: nat, list: seq<Point>)
    requires SendsAll(points, plan, m) && plan.Dest(p) == Some(id)
    ensures SendsAll(points + [p], plan, m[id := list])
  {
    hide Plan.Dest;
    var ps := points + [p];
    forall i | 0 <= i < |ps|
      ensures plan.Dest(ps[i]).Some? && plan.Dest(ps[i]).value in m[id := list]
    {
      assert i < |points| ==> ps[i] == points[i];
    }
  }

  lemma ListsOneMore(points: seq<Point>, plan: Plan, m: map<nat, seq<Point>>, p: Point, id: nat, list: seq<Point>)
    requires ListsAll(points, plan, m) && plan.Dest(p) == Some(id)
    requires id !in m ==> Routed(points, plan, id) == []
    requires list == (if id in m then m[id] else []) + [p]
    ensures ListsAll(points + [p], plan, m[id := list])
  {
    hide Routed, Plan.Dest;
    var m' := m[id := list];
    forall k | k in m'
      ensures m'[k] == Routed(points + [p], plan, k)
    {
      RoutedSnoc(points, plan, k, p);
    }
  }

  lemma StillTarget(points: seq<Point>, plan: Plan, p: Point, shard: Shard)
    ensures IsTarget(points, plan, shard) || plan.Target(p) == Some(shard) ==> IsTarget(points + [p], plan, shard)
  {
    var ps := points + [p];
    hide Plan.Target;
    if plan.Target(p) == Some(shard) {
      assert plan.Target(ps[|points|]) == Some(shard);
    } else if IsTarget(points, plan, shard) {
      var i :| 0 <= i < |points| && plan.Target(points[i]) == Some(shard);
      assert plan.Target(ps[i]) == Some(shard);
    }
  }

  lemma TargetsOneMore(points: seq<Point>, plan: Plan, shards: map<nat, Shard>, p: Point, shard: Shard)
    requires TargetsAll(points, plan, shards) && plan.Target(p) == Some(shard)
    ensures TargetsAll(points + [p], plan, shards[shard.id := shard])
  {
    var all := shards[shard.id := shard];
    hide Plan.Target, IsTarget;
    forall id | id in all
      ensures IsTarget(points + [p], plan, all[id])
    {
      StillTarget(points, plan, p, all[id]);
    }
  }

  lemma RoutedSnoc(points: seq<Point>, plan: Plan, id: nat, p: Point)
    ensures Routed(points + [p], plan, id)
         == Routed(points, plan, id) + (if plan.Dest(p) == Some(id) then [p] else [])
  {
    assert (points + [p])[..|points|] == points;
  }

  lemma {:induction false} NoneRouted(points: seq<Point>, plan: Plan, m: map<nat, seq<Point>>, id: nat)
    requires forall i :: 0 <= i < |points| ==> plan.Dest(points[i]).Some? && plan.Dest(points[i]).value in m
    requires id !in m
    ensures Routed(points, plan, id) == []
  {
    if points == [] {
    } else {
      NoneRouted(points[..|points| - 1], plan, m, id);
    }
  }

  /** Every recorded group has shards. */
  predicate HaveShards(ranges: Ranges) {
    forall t :: t in ranges && ranges[t].Some? ==> ranges[t].value.shards != []
  }

  ghost predicate HasAll(plan: Plan, points: seq<Point>) {
    forall i :: 0 <= i < |points| ==> plan.Has(points[i])
  }

  /** Some point has no group. */
  ghost predicate Misses(plan: Plan, points: seq<Point>)
    requires HasAll(plan, points)
  {
    exists i :: 0 <= i < |points| && plan.At(points[i]).None?
  }

  method MapPoints(points: seq<Point>, plan: Plan) returns (r: MapResult, mapping: ShardMapping)
    requires HaveShards(plan.ranges) && HasAll(plan, points)
    ensures fresh(mapping) && (r.Mapped? || r.NilGroup?)
    ensures r.Mapped? ==> MapsAll(points, plan, mapping.points, mapping.shards)
    ensures r.NilGroup? <==> Misses(plan, points)
  {
    hide Truncate, MapsAll, Routed;
    mapping := new ShardMapping();
    assert MapsAll(points[..0], plan, map[], map[]) by { MapsNone(points[..0], plan); }
    for i := 0 to |points|
      invariant fresh(mapping)
      invariant MapsAll(points[..i], plan, mapping.points, mapping.shards)
      invariant forall k :: 0 <= k < i ==> plan.At(points[k]).Some?
    {
      var p := points[i];
      var sg := plan.At(p);
      if sg.None? {
        return NilGroup, mapping;
      }
      var sh := ShardFor(sg.value, p.hash);
      StepMaps(points[..i], plan, mapping.points, mapping.shards, p, sh);
      mapping.MapPoint(sh, p);
      assert points[..i + 1] == points[..i] + [p];
    }
    assert points[..|points|] == points;
    return Mapped, mapping;
  }

  lemma MapsNone(points: seq<Point>, plan: Plan)
    requires points == []
    ensures MapsAll(points, plan, map[], map[])
  {
  }

  lemma StepMaps(
    points: seq<Point>, plan: Plan, m: map<nat, seq<Point>>, shards: map<nat, Shard>, p: Point, shard: Shard)
    requires MapsAll(points, plan, m, shards) && plan.Target(p) == Some(shard)
    ensures MapsAll(points + [p], plan,
                    m[shard.id := (if shard.id in m then m[shard.id] else []) + [p]], shards[shard.id := shard])
  {
    if shard.id !in m {
      NoneRouted(points, plan, m, shard.id);
    }
    MapsOneMore(points, plan, m, shards, p, shard);
  }

  /** The windows of a batch of points. */
  method Windows(points: seq<Point>, duration: int) returns (w: set<TimeRange>)
    ensures forall i :: 0 <= i < |points| ==> RangeOf(points[i].time, duration) in w
    ensures forall t :: t in w ==> exists i :: 0 <= i < |points| && t == RangeOf(points[i].time, duration)
  {
    w := {};
    for i := 0 to |points|
      invariant forall k :: 0 <= k < i ==> RangeOf(points[k].time, duration) in w
      invariant forall t :: t in w ==> exists k :: 0 <= k < i && t == RangeOf(points[k].time, duration)
    {
      w := w + {RangeOf(points[i].time, duration)};
    }
  }

  // ---------------------------------------------------------------- where points go

  /** State k of the log routes the point to dest. */
  ghost predicate RoutesAt(log: Log, l: Place, k: int, p: Point, dest: Option<nat>) {
    && 0 <= k < |log.states| && ValidPlace(log.states[k], l)
    && Route(PolicyAt(log.states[k], l).groups, p.time, p.hash) == dest
  }

  ghost predicate RoutesSometime(log: Log, l: Place, p: Point, dest: Option<nat>) {
    exists k :: RoutesAt(log, l, k, p, dest)
  }

  /** Every point goes where some state of the log routes it. */
  ghost predicate RoutesAll(log: Log, l: Place, points: seq<Point>, plan: Plan) {
    forall i :: 0 <= i < |points| ==> RoutesSometime(log, l, points[i], plan.Dest(points[i]))
  }

  ghost predicate RoutesAllAt(log: Log, l: Place, k: nat, points: seq<Point>, plan: Plan) {
    forall i :: 0 <= i < |points| ==> RoutesAt(log, l, k, points[i], plan.Dest(points[i]))
  }

  ghost predicate NoDeletion(log: Log) {
    forall m :: 0 <= m < |log.commands| ==> !Deletes(log.commands[m])
  }

  lemma RecordedRoutes(
    log: Log, from: nat, db: string, policy: string, l: Place, points: seq<Point>, plan: Plan)
    requires Running(log) && FindPolicy(log.states[0], db, policy) == Some(l) && HasAll(plan, points)
    requires PolicyAt(log.states[0], l).duration == plan.duration && Recorded(log, from, l, plan.ranges, {})
    ensures RoutesAll(log, l, points, plan)
  {
    hide Step, Ready, FindPolicy, Truncate;
    forall i | 0 <= i < |points|
      ensures RoutesSometime(log, l, points[i], plan.Dest(points[i]))
    {
      var t := RangeOf(points[i].time, plan.duration);
      assert plan.Has(points[i]);
      assert Seen(log, l, t.start, plan.ranges[t]);
      var k :| SeenAt(log, l, k, t.start, plan.ranges[t]);
      LogKeepsPlace(log, k, db, policy, l);
      SeenRoutes(log, l, k, plan, points[i]);
      assert RoutesAt(log, l, k, points[i], plan.Dest(points[i]));
    }
  }

  lemma RecordedShards(log: Log, from: nat, l: Place, ranges: Ranges)
    requires Running(log) && Recorded(log, from, l, ranges, {})
    ensures HaveShards(ranges)
  {
    hide Step, Ready, PoliciesOk, UniqueShards;
    forall t | t in ranges && ranges[t].Some?
      ensures ranges[t].value.shards != []
    {
      assert Seen(log, l, t.start, ranges[t]);
      var k :| SeenAt(log, l, k, t.start, ranges[t]);
      RunReady(log.states, log.commands, 0, k);
      ReadyParts(log.states[k]);
      var groups := PolicyAt(log.states[k], l).groups;
      var a :| 0 <= a < |groups| && groups[a] == ranges[t].value;
      HasShards(log.states[k], l, a);
    }
  }

  /** Some state of the log has the shard, with the owners it shows, in the policy. */
  ghost predicate InSomeState(log: Log, l: Place, s: Shard) {
    exists k: nat, a: Loc ::
      k < |log.states| && a.l == l && ValidLoc(log.states[k], a) && ShardAt(log.states[k], a) == s
  }

  /** Every shard of a mapping is as some state of the log shows it. */
  ghost predicate ShardsSeen(log: Log, l: Place, shards: map<nat, Shard>) {
    forall id :: id in shards ==> InSomeState(log, l, shards[id])
  }

  lemma TargetSeen(log: Log, from: nat, l: Place, plan: Plan, p: Point)
    requires Recorded(log, from, l, plan.ranges, {}) && plan.Target(p).Some?
    ensures InSomeState(log, l, plan.Target(p).value)
  {
    hide Truncate, Excused;
    var t := RangeOf(p.time, plan.duration);
    assert Seen(log, l, t.start, plan.ranges[t]);
    var k :| SeenAt(log, l, k, t.start, plan.ranges[t]);
    var g := plan.ranges[t].value;
    var groups := PolicyAt(log.states[k], l).groups;
    var j :| 0 <= j < |groups| && groups[j] == g;
    var a := Loc(l, j, p.hash % |g.shards|);
    assert ValidLoc(log.states[k], a) && ShardAt(log.states[k], a) == plan.Target(p).value;
  }

  lemma TargetsSeen(
    log: Log, from: nat, l: Place, points: seq<Point>, plan: Plan, m: map<nat, seq<Point>>, shards: map<nat, Shard>)
    requires Recorded(log, from, l, plan.ranges, {}) && MapsAll(points, plan, m, shards)
    ensures ShardsSeen(log, l, shards)
  {
    hide Recorded, Plan.Target, Plan.Dest, Routed, InSomeState;
    forall id | id in shards
      ensures InSomeState(log, l, shards[id])
    {
      var i :| 0 <= i < |points| && plan.Target(points[i]) == Some(shards[id]);
      TargetSeen(log, from, l, plan, points[i]);
    }
  }

  /** Some point has no group in the metadata. */
  ghost predicate Uncovered(d: Data, l: Place, points: seq<Point>)
    requires ValidPlace(d, l)
  {
    exists i :: 0 <= i < |points| && GroupAt(PolicyAt(d, l).groups, points[i].time).None?
  }

  /** What MapShards answers to a client that starts with the metadata as it is and is alone: when it crashes. */
  ghost predicate CrashesWhen(d: Data, l: Place, points: seq<Point>)
    requires ValidPlace(d, l)
  {
    d.dataNodes == [] && Uncovered(d, l, points)
  }

  /**
   Maps a batch of points to shards, with any commands of other clients in
   between and with looks at a copy of the metadata that can lag behind.  Each
   point goes where some state of the metadata routes it, and unless a group was
   deleted, that is where the metadata afterwards routes it.  A window without a
   group makes it crash; for a client that is alone, this happens exactly when
   there are no data nodes and some point has no group yet.
   */
  method MapShards(meta: ClusterData, log: Log, db: string, policy: string, points: seq<Point>, w: Context)
    returns (r: MapResult, mapping: ShardMapping?, log': Log, ghost plan: Plan)
    requires Shows(log, meta.Value())
    modifies meta
    ensures Shows(log', meta.Value()) && Grows(log, log') && OwnOrOthers(log', |log.commands|, db, policy, w)
    ensures r.Failed? <==> FindPolicy(log.states[0], db, policy).None?
    ensures r.Failed? ==>
              r.why == if exists i :: 0 <= i < |old(meta.databases)| && old(meta.databases)[i].name == db
                       then ErrPolicyNotFound else ErrDatabaseNotFound
    ensures !r.Failed? ==>
              var l := FindPolicy(log.states[0], db, policy).value;
              && plan.duration == PolicyAt(log.states[0], l).duration && HasAll(plan, points)
              && (r.NilGroup? <==> Misses(plan, points))
              && (r.NilGroup? ==> Excused(log', |log.commands|))
              && RoutesAll(log', l, points, plan)
              && OneQuestion(log, log', db, policy, l, w, plan.ranges)
              && (|points| == 1 ==> plan.ranges.Keys == {RangeOf(points[0].time, plan.duration)})
              && (r.Mapped? && NoDeletion(log') ==> RoutesAllAt(log', l, |log'.commands|, points, plan))
              && (r.Mapped? ==> mapping != null && MapsAll(points, plan, mapping.points, mapping.shards))
              && (r.Mapped? ==> ShardsSeen(log', l, mapping.shards))
              && (Alone(w) && log.commands == [] ==> (r.NilGroup? <==> CrashesWhen(log.states[0], l, points)))
  {
    hide Ready, FindPolicy, Step, MapsAll, Recorded, RoutesAll, RoutesAllAt, NoDeletion, Excused, HaveShards, Truncate;
    hide Requested, CrashesWhen, Misses, OwnOrOther, ShardsSeen;
    log', plan, mapping := log, Plan(map[], 0), null;
    var place, err := FindIn(meta, log, db, policy);
    if place.None? {
      return Failed(err), null, log', plan;
    }
    var l := place.value;
    var duration := log.states[0].databases[l.i].policies[l.j].duration;
    var windows := Windows(points, duration);
    var ranges;
    ranges, log' := CreateGroups(meta, log, db, policy, l, windows, w);
    plan := Plan(ranges, duration);
    RecordedShards(log', |log.commands|, l, ranges);
    RecordedRoutes(log', |log.commands|, db, policy, l, points, plan);
    r, mapping := MapPoints(points, Plan(ranges, duration));
    if r.NilGroup? {
      MissingIsExcused(log', |log.commands|, l, plan, points);
    } else {
      TargetsSeen(log', |log.commands|, l, points, plan, mapping.points, mapping.shards);
      if NoDeletion(log') {
        FinalRoutes(log', l, points, plan, mapping.points, mapping.shards);
      }
    }
    if Alone(w) && log.commands == [] {
      CrashIff(log', db, policy, l, points, plan, w);
    }
  }

  /** The place of the policy, which is the same in every state of the log. */
  method FindIn(meta: ClusterData, log: Log, db: string, policy: string) returns (r: Option<Place>, out: Outcome)
    requires Shows(log, meta.Value())
    ensures r == FindPolicy(log.states[0], db, policy)
    ensures r.None? ==> out == if exists i :: 0 <= i < |meta.databases| && meta.databases[i].name == db
                               then ErrPolicyNotFound else ErrDatabaseNotFound
  {
    hide Step, Ready, SameNames, FindPolicy;
    r, out := meta.RetentionPolicy(db, policy);
    RunSameNames(log.states, log.commands, 0, |log.commands|);
    SameFind(log.states[0], log.states[|log.commands|], db, policy);
  }

  lemma MissingIsExcused(log: Log, from: nat, l: Place, plan: Plan, points: seq<Point>)
    requires Recorded(log, from, l, plan.ranges, {}) && HasAll(plan, points) && Misses(plan, points)
    ensures Excused(log, from)
  {
  }

  // ---------------------------------------------------------------- when a write crashes

  lemma {:induction false} CreationsKeepNodes(log: Log, j: nat)
    requires Run(log.states, log.commands) && j < |log.states|
    requires forall m :: 0 <= m < |log.commands| ==> log.commands[m].CreateShardGroup?
    ensures log.states[j].dataNodes == log.states[0].dataNodes
    ensures log.states[0].dataNodes == [] ==> log.states[j].databases == log.states[0].databases
    decreases j
  {
    if j == 0 {
    } else {
      CreationsKeepNodes(log, j - 1);
      var d, c := log.states[j - 1], log.commands[j - 1];
      assert Step(d, c, log.states[j]);
      hide GroupCreated, FindPolicy;
      var l := FindPolicy(d, c.db, c.policy);
      if !(d.dataNodes == [] || l.None? || GroupAt(PolicyAt(d, l.value).groups, c.t).Some?) {
        var shards, groups := CreatedParts(d, l.value, c.t, log.states[j]);
      }
    }
  }

  lemma AloneCreates(log: Log, db: string, policy: string, w: Context)
    requires OwnOrOthers(log, 0, db, policy, w) && Alone(w)
    ensures forall m :: 0 <= m < |log.commands| ==> log.commands[m].CreateShardGroup?
  {
    assert forall m :: 0 <= m < |log.commands| ==> OwnOrOther(log.commands[m], db, policy, w);
  }

  /** For a client that is alone, a group is missing only when there are no data nodes. */
  lemma ExcusedAlone(log: Log, db: string, policy: string, w: Context)
    requires Run(log.states, log.commands) && Excused(log, 0) && OwnOrOthers(log, 0, db, policy, w) && Alone(w)
    ensures log.states[0].dataNodes == []
  {
    AloneCreates(log, db, policy, w);
    hide Step, OwnOrOthers;
    var k :| 0 <= k < |log.states| && log.states[k].dataNodes == [];
    CreationsKeepNodes(log, k);
  }

  /** Without data nodes, a client that is alone records exactly what the metadata has. */
  lemma RecordedWithoutNodes(log: Log, db: string, policy: string, l: Place, plan: Plan, p: Point, w: Context)
    requires Running(log) && FindPolicy(log.states[0], db, policy) == Some(l)
    requires plan.duration == PolicyAt(log.states[0], l).duration && Recorded(log, 0, l, plan.ranges, {})
    requires OwnOrOthers(log, 0, db, policy, w) && Alone(w) && log.states[0].dataNodes == [] && plan.Has(p)
    ensures plan.At(p) == GroupAt(PolicyAt(log.states[0], l).groups, p.time)
  {
    AloneCreates(log, db, policy, w);
    hide Step, Ready, FindPolicy, Truncate, OwnOrOthers, Excused;
    var t := RangeOf(p.time, plan.duration);
    assert Seen(log, l, t.start, plan.ranges[t]);
    var k :| SeenAt(log, l, k, t.start, plan.ranges[t]);
    CreationsKeepNodes(log, k);
    LogKeepsPlace(log, k, db, policy, l);
    SeenRoutes(log, l, k, plan, p);
  }

  /** A client that is alone misses a group exactly when there are no data nodes and some point has no group yet. */
  lemma CrashIff(log: Log, db: string, policy: string, l: Place, points: seq<Point>, plan: Plan, w: Context)
    requires Running(log) && FindPolicy(log.states[0], db, policy) == Some(l) && HasAll(plan, points)
    requires plan.duration == PolicyAt(log.states[0], l).duration && Recorded(log, 0, l, plan.ranges, {})
    requires OwnOrOthers(log, 0, db, policy, w) && Alone(w)
    ensures Misses(plan, points) <==> CrashesWhen(log.states[0], l, points)
  {
    hide Step, Ready, FindPolicy, Excused, OwnOrOthers, Recorded;
    if Misses(plan, points) {
      MissingIsExcused(log, 0, l, plan, points);
      ExcusedAlone(log, db, policy, w);
    }
    if log.states[0].dataNodes == [] {
      forall i | 0 <= i < |points|
        ensures plan.At(points[i]) == GroupAt(PolicyAt(log.states[0], l).groups, points[i].time)
      {
        assert plan.Has(points[i]);
        RecordedWithoutNodes(log, db, policy, l, plan, points[i], w);
      }
    }
  }

  /** A write to a cluster without nodes and groups crashes. */
  method WriteToBlank(db: string, policy: string, duration: int, replicaN: nat, p: Point) returns (r: MapResult)
    requires duration > 0
    ensures r.NilGroup?
  {
    var meta := new ClusterData([Database(db, [Policy(policy, replicaN, duration, [])])]);
    var d := meta.Value();
    assert Blank(d);
    assert FindPolicy(d, db, policy) == Some(Place(0, 0));
    assert GroupAt(PolicyAt(d, Place(0, 0)).groups, [p][0].time).None?;
    assert Ready(d) by { BlankIsReady(d); }
    hide Ready, FindPolicy, Blank, RoutesAll, RoutesAllAt, MapsAll, Misses;
    var mapping, log;
    ghost var plan;
    r, mapping, log, plan := MapShards(meta, Log([d], []), db, policy, [p], Context(k => [], k => 0));
  }

  /** A group that is deleted right after its creation is missing. */
  lemma DeletedMeanwhile(d: Data, db: string, policy: string, l: Place, t: int, d1: Data, now: int, d2: Data)
    requires Ready(d) && d.dataNodes != [] && FindPolicy(d, db, policy) == Some(l)
    requires GroupAt(PolicyAt(d, l).groups, t).None? && Step(d, CreateShardGroup(db, policy, t), d1)
    requires Step(d1, DeleteShardGroup(db, policy, d.maxShardGroupID + 1, now), d2)
    ensures ValidPlace(d2, l) && GroupAt(PolicyAt(d2, l).groups, t).None?
  {
    hide Step, PoliciesOk, UniqueShards, FindPolicy, SameNames, Ready;
    ReadyParts(d);
    StepKeepsPolicies(d, CreateShardGroup(db, policy, t), d1);
    StepSameNames(d, CreateShardGroup(db, policy, t), d1);
    SamePlace(d, d1, db, policy, l);
    CreatedGroup(d, db, policy, l, t, d1);
    MarkedIsMissing(d1, db, policy, l, t, now, d2);
  }

  lemma MarkedIsMissing(d: Data, db: string, policy: string, l: Place, t: int, now: int, d': Data)
    requires PoliciesOk(d) && FindPolicy(d, db, policy) == Some(l) && GroupAt(PolicyAt(d, l).groups, t).Some?
    requires Step(d, DeleteShardGroup(db, policy, GroupAt(PolicyAt(d, l).groups, t).value.id, now), d')
    ensures ValidPlace(d', l) && GroupAt(PolicyAt(d', l).groups, t).None?
  {
    hide PoliciesOk, FindPolicy, SetGroups, MarkDeleted, OneLiveAt;
    var groups := PolicyAt(d, l).groups;
    var b :| 0 <= b < |groups| && groups[b] == GroupAt(groups, t).value;
    OnlyOneMarked(d, l, b, now);
    LiveOnce(d, l, t);
    GoneFrom(groups, t, b, now);
    assert ValidPlace(SetGroups(d, l, MarkDeleted(groups, groups[b].id, now)), l);
  }

  lemma GoneFrom(groups: seq<Group>, t: int, b: nat, now: int)
    requires b < |groups| && OneLiveAt(groups, t) && LiveAt(groups[b], t)
    ensures GroupAt(groups[b := groups[b].(deletedAt := Some(now))], t).None?
  {
    var groups' := groups[b := groups[b].(deletedAt := Some(now))];
    forall g | g in groups'
      ensures !Contains(g, t) || Deleted(g)
    {
      var i :| 0 <= i < |groups'| && groups'[i] == g;
      assert i != b ==> !LiveAt(groups[i], t);
    }
  }

  lemma OnlyOneMarked(d: Data, l: Place, b: nat, now: int)
    requires PoliciesOk(d) && ValidPlace(d, l) && b < |PolicyAt(d, l).groups|
    ensures var groups := PolicyAt(d, l).groups;
            MarkDeleted(groups, groups[b].id, now) == groups[b := groups[b].(deletedAt := Some(now))]
  {
    assert PolicyOk(d, l);
    var groups := PolicyAt(d, l).groups;
    MarkAt(groups, groups[b].id, now, b);
  }

  /** Others delete the group right after its creation, and every look sees the newest state. */
  function Deleting(db: string, policy: string, gid: nat, now: int): Context {
    Context(k => if k == 1 then [DeleteShardGroup(db, policy, gid, now)] else [], k => 0)
  }

  lemma DeletedInTime(log: Log, q: Question, d: Data, now: int, g: Option<Group>)
    requires Running(log) && log.states[0] == d && d.dataNodes != [] && FindPolicy(d, q.db, q.policy) == Some(q.l)
    requires q.i == 0 && GroupAt(PolicyAt(d, q.l).groups, q.t).None?
    requires Requested(Log([d], []), log, q, Deleting(q.db, q.policy, d.maxShardGroupID + 1, now), g)
    ensures g.None?
  {
    hide FindPolicy, Ready;
    var w := Deleting(q.db, q.policy, d.maxShardGroupID + 1, now);
    assert w.others(0) == [] && w.lag(0) == 0 && w.lag(1) == 0;
    assert FirstLook(Log([d], []), log, q, w, None);
    assert log.commands == [CreateShardGroup(q.db, q.policy, q.t)]
                           + [DeleteShardGroup(q.db, q.policy, d.maxShardGroupID + 1, now)];
    assert Step(log.states[0], log.commands[0], log.states[1]) && Step(log.states[1], log.commands[1], log.states[2]);
    hide Step;
    DeletedMeanwhile(d, q.db, q.policy, q.l, q.t, log.states[1], now, log.states[2]);
  }

  /**
   With data nodes, a write to a new window crashes when another client deletes
   the group right after its creation.
   */
  method WriteWhileDeleting(meta: ClusterData, db: string, policy: string, l: Place, p: Point, now: int)
    returns (r: MapResult)
    requires Ready(meta.Value()) && meta.dataNodes != [] && FindPolicy(meta.Value(), db, policy) == Some(l)
    requires GroupAt(PolicyAt(meta.Value(), l).groups, p.time).None?
    modifies meta
    ensures r.NilGroup?
  {
    hide Ready, FindPolicy, Step, RoutesAll, RoutesAllAt, MapsAll, Excused, Requested, Truncate;
    var d := meta.Value();
    var mapping, log;
    ghost var plan;
    r, mapping, log, plan :=
      MapShards(meta, Log([d], []), db, policy, [p], Deleting(db, policy, meta.maxShardGroupID + 1, now));
    WindowGroup(d, l, p.time);
    ghost var t := RangeOf(p.time, plan.duration);
    assert plan.Has([p][0]);
    assert plan.ranges.Keys == {t};
    DeletedInTime(log, Question(db, policy, l, t.start, 0), d, now, plan.ranges[t]);
    assert plan.At([p][0]).None?;
  }

  // ---------------------------------------------------------------- writing and reading

  /**
   A point that was routed in state k keeps its shard: the group is there in every
   later state with the same window and the same shards, and until it is deleted
   the point is still routed to that shard.
   */
  lemma RouteStays(log: Log, k: nat, j: nat, l: Place, p: Point, id: nat) returns (a: nat, b: nat)
    requires Running(log) && k <= j < |log.states| && RoutesAt(log, l, k, p, Some(id))
    ensures ValidPlace(log.states[j], l)
    ensures a < |PolicyAt(log.states[k], l).groups| && LiveAt(PolicyAt(log.states[k], l).groups[a], p.time)
    ensures GroupAt(PolicyAt(log.states[k], l).groups, p.time) == Some(PolicyAt(log.states[k], l).groups[a])
    ensures b < |PolicyAt(log.states[j], l).groups|
    ensures Later(PolicyAt(log.states[k], l).groups[a], PolicyAt(log.states[j], l).groups[b])
    ensures Deleted(PolicyAt(log.states[j], l).groups[b]) ==> exists m :: k <= m < j && Deletes(log.commands[m])
    ensures !Deleted(PolicyAt(log.states[j], l).groups[b]) ==> RoutesAt(log, l, j, p, Some(id))
  {
    hide Step, Ready, PoliciesOk, UniqueShards, Truncate;
    RunReady(log.states, log.commands, 0, k);
    RunReady(log.states, log.commands, 0, j);
    ReadyParts(log.states[k]);
    ReadyParts(log.states[j]);
    var groups := PolicyAt(log.states[k], l).groups;
    a :| 0 <= a < |groups| && groups[a] == GroupAt(groups, p.time).value;
    b := RunLater(log.states, log.commands, k, j, l, a);
    if !Deleted(PolicyAt(log.states[j], l).groups[b]) {
      RouteStable(log.states, log.commands, k, j, l, a, b, p.time, p.time, p.hash);
    }
  }

  lemma FinalRoutes(
    log: Log, l: Place, points: seq<Point>, plan: Plan, m: map<nat, seq<Point>>, shards: map<nat, Shard>)
    requires Running(log) && NoDeletion(log) && RoutesAll(log, l, points, plan) && MapsAll(points, plan, m, shards)
    ensures RoutesAllAt(log, l, |log.commands|, points, plan)
  {
    hide Step, Ready, Plan.Dest, Routed;
    forall i | 0 <= i < |points|
      ensures RoutesAt(log, l, |log.commands|, points[i], plan.Dest(points[i]))
    {
      var dest := plan.Dest(points[i]);
      assert RoutesSometime(log, l, points[i], dest) && dest.Some?;
      var k :| RoutesAt(log, l, k, points[i], dest);
      var a, b := RouteStays(log, k, |log.commands|, l, points[i], dest.value);
    }
  }

  /**
   A mapped point is in the list of its shard, and that is a shard of the one live
   group whose window holds the point's time.
   */
  lemma MappedInWindow(
    log: Log, l: Place, k: int, points: seq<Point>, plan: Plan,
    m: map<nat, seq<Point>>, shards: map<nat, Shard>, i: nat)
    returns (a: Loc)
    requires i < |points| && MapsAll(points, plan, m, shards) && RoutesAt(log, l, k, points[i], plan.Dest(points[i]))
    ensures ValidLoc(log.states[k], a) && a.l == l && LiveAt(PolicyAt(log.states[k], l).groups[a.k], points[i].time)
    ensures plan.Dest(points[i]) == Some(ShardAt(log.states[k], a).id) && ShardAt(log.states[k], a).id in m
    ensures points[i] in m[ShardAt(log.states[k], a).id]
  {
    hide Routed;
    var groups, p := PolicyAt(log.states[k], l).groups, points[i];
    assert plan.Dest(p).Some?;
    hide Plan.Dest;
    var g := GroupAt(groups, p.time).value;
    var n :| 0 <= n < |groups| && groups[n] == g;
    a := Loc(l, n, p.hash % |g.shards|);
    var id := ShardAt(log.states[k], a).id;
    RoutedCounts(points, plan, id, p);
    assert p in multiset(points);
    assert p in multiset(Routed(points, plan, id));
  }

  predicate NotDeleted(groups: seq<Group>, gid: nat) {
    forall b :: 0 <= b < |groups| && groups[b].id == gid ==> !Deleted(groups[b])
  }

  /**
   Write/read agreement over whole histories.  A point that some state routed to a
   shard is found by every time-range query over a later state whose range holds
   the point's time, at exactly one position of the answer, as long as its group
   is not deleted.
   */
  lemma WriteThenRead(
    log: Log, k: nat, j: nat, l: Place, p: Point, id: nat,
    sources: seq<Source>, q: nat, min: int, max: int, order: seq<Loc>) returns (n: nat)
    requires Running(log) && k <= j < |log.states| && RoutesAt(log, l, k, p, Some(id))
    requires ValidPlace(log.states[j], l)
    requires NotDeleted(PolicyAt(log.states[j], l).groups, GroupAt(PolicyAt(log.states[k], l).groups, p.time).value.id)
    requires q < |sources| && sources[q].Measurement?
    requires FindPolicy(log.states[j], sources[q].db, sources[q].policy) == Some(l)
    requires min <= p.time <= max && Lists(log.states[j], sources, min, max, order)
    ensures n < |order| && Finds(log.states[j], order[n], id)
    ensures forall i :: 0 <= i < |order| && Finds(log.states[j], order[i], id) ==> i == n
  {
    hide Step, Ready, PoliciesOk, UniqueShards, FindPolicy, Lists;
    var a, b := RouteStays(log, k, j, l, p, id);
    RunReady(log.states, log.commands, 0, j);
    ReadyParts(log.states[j]);
    n := ReadFindsRouted(log.states[j], sources, min, max, order, q, l, p.time, p.hash, id);
  }
}
