/**
 A client's requests for shard groups, while other clients change the metadata
 and the client's own copy of it lags behind.
 */
module ShardRequests {
  import opened Options
  import opened Metadata
  import opened ClusterSpec
  import opened ShardProofs
  import opened Routing
  import opened ClusterObject

  // ---------------------------------------------------------------- the history of the metadata

  /** The commands executed so far and the states they led through. */
  datatype Log = Log(states: seq<Data>, commands: seq<Command>)

  ghost predicate Running(log: Log) {
    Run(log.states, log.commands) && Ready(log.states[0])
  }

  /** The log ends with the metadata as it is now. */
  ghost predicate Shows(log: Log, d: Data) {
    Running(log) && log.states[|log.commands|] == d
  }

  ghost predicate Grows(log: Log, log': Log) {
    log.states <= log'.states && log.commands <= log'.commands
  }

  lemma RunConcat(s1: seq<Data>, c1: seq<Command>, s2: seq<Data>, c2: seq<Command>)
    requires Run(s1, c1) && Run(s2, c2) && s1[|c1|] == s2[0]
    ensures Run(s1 + s2[1..], c1 + c2)
    ensures s1 <= s1 + s2[1..] && (s1 + s2[1..])[|c1 + c2|] == s2[|c2|]
  {
    hide Step;
    var s, c := s1 + s2[1..], c1 + c2;
    forall k | 0 <= k < |c|
      ensures Step(s[k], c[k], s[k + 1])
    {
      if k < |c1| {
        assert Step(s1[k], c1[k], s1[k + 1]);
      } else {
        assert Step(s2[k - |c1|], c2[k - |c1|], s2[k - |c1| + 1]);
      }
    }
  }

  /** Executes commands and records them. */
  method Record(meta: ClusterData, log: Log, cs: seq<Command>) returns (log': Log)
    requires Shows(log, meta.Value())
    modifies meta
    ensures Shows(log', meta.Value()) && Grows(log, log') && log'.commands == log.commands + cs
  {
    hide Step, Ready;
    var states := meta.ExecuteAll(cs);
    RunConcat(log.states, log.commands, states, cs);
    log' := Log(log.states + states[1..], log.commands + cs);
  }

  /** Every state of the log is in order, with every policy in its place. */
  lemma LogKeepsPlace(log: Log, j: nat, db: string, policy: string, l: Place)
    requires Running(log) && j < |log.states| && FindPolicy(log.states[0], db, policy) == Some(l)
    ensures Ready(log.states[j]) && FindPolicy(log.states[j], db, policy) == Some(l)
    ensures PolicyAt(log.states[j], l).duration == PolicyAt(log.states[0], l).duration
  {
    hide Step, Ready, FindPolicy, SameNames;
    RunReady(log.states, log.commands, 0, j);
    RunSameNames(log.states, log.commands, 0, j);
    SamePlace(log.states[0], log.states[j], db, policy, l);
  }

  /** The group of an instant does not get lost while no group is deleted. */
  lemma GroupPersists(states: seq<Data>, commands: seq<Command>, i: nat, j: nat, l: Place, t: int)
    requires Run(states, commands) && i <= j < |states| && ValidPlace(states[i], l)
    requires GroupAt(PolicyAt(states[i], l).groups, t).Some? && forall m :: i <= m < j ==> !Deletes(commands[m])
    ensures ValidPlace(states[j], l) && GroupAt(PolicyAt(states[j], l).groups, t).Some?
  {
    hide Step;
    var groups := PolicyAt(states[i], l).groups;
    var a :| 0 <= a < |groups| && groups[a] == GroupAt(groups, t).value;
    var b := RunLater(states, commands, i, j, l, a);
    assert PolicyAt(states[j], l).groups[b] in PolicyAt(states[j], l).groups;
  }

  // ---------------------------------------------------------------- one request

  /**
   What happens beside a client: the commands that others execute before its look
   number k, and by how many states that look lags behind.
   */
  datatype Context = Context(others: nat -> seq<Command>, lag: nat -> nat)

  ghost predicate Alone(w: Context) {
    forall k :: w.others(k) == []
  }

  /** The state that a look reads: none before lo, and lag states before hi if there are as many. */
  function LookAt(lo: nat, hi: nat, lag: nat): (k: nat)
    requires lo <= hi
    ensures lo <= k <= hi
  {
    if lo + lag <= hi then hi - lag else lo
  }

  /** The metadata in state k of the log shows group g for the instant t. */
  ghost predicate SeenAt(log: Log, l: Place, k: int, t: int, g: Option<Group>) {
    0 <= k < |log.states| && ValidPlace(log.states[k], l) && g == GroupAt(PolicyAt(log.states[k], l).groups, t)
  }

  ghost predicate Seen(log: Log, l: Place, t: int, g: Option<Group>) {
    exists k :: SeenAt(log, l, k, t, g)
  }

  /** A client's question: the group of which instant, in which policy, and the how many-th question it is. */
  datatype Question = Question(db: string, policy: string, l: Place, t: int, i: nat)

  /** The number of commands before the first look. */
  function Before(log: Log, q: Question, w: Context): nat {
    |log.commands| + |w.others(2 * q.i)|
  }

  /** The first look sees g.  It can read any state, also from before the question. */
  ghost predicate FirstLook(log: Log, log': Log, q: Question, w: Context, g: Option<Group>) {
    SeenAt(log', q.l, LookAt(0, Before(log, q, w), w.lag(2 * q.i)), q.t, g)
  }

  /** The second look sees g.  It reads a state after the client's own command. */
  ghost predicate SecondLook(log: Log, log': Log, q: Question, w: Context, g: Option<Group>) {
    && Before(log, q, w) < |log'.commands|
    && SeenAt(log', q.l, LookAt(Before(log, q, w) + 1, |log'.commands|, w.lag(2 * q.i + 1)), q.t, g)
  }

  /** The group that was answered, and what was executed for it. */
  ghost predicate Requested(log: Log, log': Log, q: Question, w: Context, g: Option<Group>) {
    || (&& g.Some? && FirstLook(log, log', q, w, g)
        && log'.commands == log.commands + w.others(2 * q.i))
    || (&& FirstLook(log, log', q, w, None) && SecondLook(log, log', q, w, g)
        && log'.commands == log.commands + w.others(2 * q.i)
                            + [CreateShardGroup(q.db, q.policy, q.t)] + w.others(2 * q.i + 1))
  }

  /**
   What can make a group missing: from some moment on there was a state without
   data nodes, or a group was deleted.
   */
  ghost predicate Excused(log: Log, from: nat) {
    || (exists k :: from <= k < |log.states| && log.states[k].dataNodes == [])
    || (exists m :: from <= m < |log.commands| && Deletes(log.commands[m]))
  }

  /** After the client's own command a group is missing only with an excuse. */
  lemma WhyMissing(log: Log, i: nat, j: nat, db: string, policy: string, l: Place, t: int, from: nat)
    requires Running(log) && from <= i < j < |log.states| && FindPolicy(log.states[0], db, policy) == Some(l)
    requires log.commands[i] == CreateShardGroup(db, policy, t)
    ensures ValidPlace(log.states[j], l)
    ensures GroupAt(PolicyAt(log.states[j], l).groups, t).None? ==> Excused(log, from)
  {
    hide Step, FindPolicy, Ready;
    LogKeepsPlace(log, i, db, policy, l);
    LogKeepsPlace(log, j, db, policy, l);
    if log.states[i].dataNodes != [] && forall m :: from <= m < |log.commands| ==> !Deletes(log.commands[m]) {
      ReadyParts(log.states[i]);
      CreateCovers(log.states[i], db, policy, t, log.states[i + 1], l);
      GroupPersists(log.states, log.commands, i + 1, j, l, t);
    }
  }

  lemma RequestedExcused(log: Log, log': Log, q: Question, w: Context, g: Option<Group>)
    requires Running(log') && Grows(log, log') && FindPolicy(log'.states[0], q.db, q.policy) == Some(q.l)
    requires Requested(log, log', q, w, g) && g.None?
    ensures Excused(log', |log.commands|)
  {
    hide Step, FindPolicy, Ready, Excused;
    var n := Before(log, q, w);
    assert log'.commands[n] == CreateShardGroup(q.db, q.policy, q.t);
    var k := LookAt(n + 1, |log'.commands|, w.lag(2 * q.i + 1));
    WhyMissing(log', n, k, q.db, q.policy, q.l, q.t, |log.commands|);
  }

  /** Creating a group where there are no data nodes changes nothing. */
  lemma CreateWithoutNodes(d: Data, db: string, policy: string, t: int, d': Data)
    requires Step(d, CreateShardGroup(db, policy, t), d') && d.dataNodes == []
    ensures d'.databases == d.databases && d'.dataNodes == []
  {
  }

  /**
   A client that is alone misses a group if and only if its own copy does not
   show it, the metadata does not have it, and there are no data nodes.
   */
  lemma RequestedAloneIff(log: Log, log': Log, q: Question, w: Context, g: Option<Group>)
    requires Running(log) && Running(log') && Grows(log, log') && FindPolicy(log.states[0], q.db, q.policy) == Some(q.l)
    requires Requested(log, log', q, w, g) && w.others(2 * q.i) == [] && w.others(2 * q.i + 1) == []
    ensures var n := |log.commands|;
            var copy := LookAt(0, n, w.lag(2 * q.i));
            && ValidPlace(log.states[copy], q.l) && ValidPlace(log.states[n], q.l)
            && (g.None? <==>
                  && GroupAt(PolicyAt(log.states[copy], q.l).groups, q.t).None?
                  && GroupAt(PolicyAt(log.states[n], q.l).groups, q.t).None?
                  && log.states[n].dataNodes == [])
  {
    hide FindPolicy, Ready;
    var n := |log.commands|;
    var copy := LookAt(0, n, w.lag(2 * q.i));
    LogKeepsPlace(log, copy, q.db, q.policy, q.l);
    LogKeepsPlace(log, n, q.db, q.policy, q.l);
    assert log'.states[copy] == log.states[copy] && log'.states[n] == log.states[n];
    if FirstLook(log, log', q, w, None) {
      assert log'.commands == log.commands + [CreateShardGroup(q.db, q.policy, q.t)];
      assert Step(log'.states[n], CreateShardGroup(q.db, q.policy, q.t), log'.states[n + 1]);
      hide Step;
      if log.states[n].dataNodes == [] {
        CreateWithoutNodes(log.states[n], q.db, q.policy, q.t, log'.states[n + 1]);
      } else {
        ReadyParts(log.states[n]);
        CreateCovers(log.states[n], q.db, q.policy, q.t, log'.states[n + 1], q.l);
      }
    }
  }

  /**
   Asks for the group of an instant: the client's copy may show it already, or
   else it is created and looked up again.
   */
  method RequestGroup(meta: ClusterData, log: Log, q: Question, w: Context) returns (g: Option<Group>, log': Log)
    requires Shows(log, meta.Value()) && FindPolicy(log.states[0], q.db, q.policy) == Some(q.l)
    modifies meta
    ensures Shows(log', meta.Value()) && Grows(log, log') && Requested(log, log', q, w, g)
    ensures g.None? ==> Excused(log', |log.commands|)
    ensures w.others(2 * q.i) == [] && w.others(2 * q.i + 1) == [] ==>
              var copy := LookAt(0, |log.commands|, w.lag(2 * q.i));
              && ValidPlace(log.states[copy], q.l) && ValidPlace(old(meta.Value()), q.l)
              && (g.None? <==>
                    && GroupAt(PolicyAt(log.states[copy], q.l).groups, q.t).None?
                    && GroupAt(PolicyAt(old(meta.Value()), q.l).groups, q.t).None?
                    && old(meta.dataNodes) == [])
  {
    hide Ready, FindPolicy, Step, Excused;
    g, log' := Ask(meta, log, q, w);
    if g.None? {
      RequestedExcused(log, log', q, w, g);
    }
    if w.others(2 * q.i) == [] && w.others(2 * q.i + 1) == [] {
      RequestedAloneIff(log, log', q, w, g);
    }
  }

  /** What state k of the log shows. */
  method Look(log: Log, k: nat, q: Question) returns (g: Option<Group>)
    requires Running(log) && k < |log.states| && FindPolicy(log.states[0], q.db, q.policy) == Some(q.l)
    ensures SeenAt(log, q.l, k, q.t, g)
  {
    hide Ready, FindPolicy, Step;
    LogKeepsPlace(log, k, q.db, q.policy, q.l);
    return GroupAt(log.states[k].databases[q.l.i].policies[q.l.j].groups, q.t);
  }

  method Ask(meta: ClusterData, log: Log, q: Question, w: Context) returns (g: Option<Group>, log': Log)
    requires Shows(log, meta.Value()) && FindPolicy(log.states[0], q.db, q.policy) == Some(q.l)
    modifies meta
    ensures Shows(log', meta.Value()) && Grows(log, log') && Requested(log, log', q, w, g)
  {
    hide Ready, FindPolicy, Step, SeenAt;
    log' := Record(meta, log, w.others(2 * q.i));
    var first := LookAt(0, |log'.commands|, w.lag(2 * q.i));
    g := Look(log', first, q);
    if g.Some? {
      return;
    }
    ghost var mid := log';
    var n := |log'.commands|;
    log' := Record(meta, log', [CreateShardGroup(q.db, q.policy, q.t)]);
    log' := Record(meta, log', w.others(2 * q.i + 1));
    SeenLater(mid, log', q.l, first, q.t, g);
    var second := LookAt(n + 1, |log'.commands|, w.lag(2 * q.i + 1));
    g := Look(log', second, q);
  }

  lemma SeenLater(log: Log, log': Log, l: Place, k: int, t: int, g: Option<Group>)
    requires SeenAt(log, l, k, t, g) && Grows(log, log')
    ensures SeenAt(log', l, k, t, g)
  {
  }

  // ---------------------------------------------------------------- many requests

  /** The start of the time range of a shard group. */
  datatype TimeRange = From(start: int)

  /** The groups that were recorded for the windows of a request. */
  type Ranges = map<TimeRange, Option<Group>>

  /**
   The groups recorded for the windows dealt with so far were each seen in some
   state of the log, and none is missing without an excuse.
   */
  ghost predicate Recorded(log: Log, from: nat, l: Place, ranges: Ranges, todo: set<TimeRange>) {
    && todo <= ranges.Keys
    && (forall t :: t in ranges && t !in todo ==> Seen(log, l, t.start, ranges[t]))
    && (forall t :: t in ranges && t !in todo && ranges[t].None? ==> Excused(log, from))
  }

  ghost predicate OwnOrOther(c: Command, db: string, policy: string, w: Context) {
    (exists k :: c in w.others(k)) || (c.CreateShardGroup? && c.db == db && c.policy == policy)
  }

  /** From some moment on, every command is this client's own or one of the others. */
  ghost predicate OwnOrOthers(log: Log, from: nat, db: string, policy: string, w: Context) {
    forall m :: from <= m < |log.commands| ==> OwnOrOther(log.commands[m], db, policy, w)
  }

  lemma RecordedMore(
    log: Log, log': Log, from: nat, q: Question, w: Context, ranges: Ranges, todo: set<TimeRange>, g: Option<Group>)
    requires Grows(log, log') && Recorded(log, from, q.l, ranges, todo) && From(q.t) in todo && from <= |log.commands|
    requires Requested(log, log', q, w, g) && (g.None? ==> Excused(log', |log.commands|))
    ensures Recorded(log', from, q.l, ranges[From(q.t) := g], todo - {From(q.t)})
  {
    assert Excused(log, from) ==> Excused(log', from) by { ExcusedLater(log, log', from); }
    assert Seen(log', q.l, q.t, g);
    hide Excused, SeenAt;
    forall t | t in ranges && t !in todo
      ensures Seen(log', q.l, t.start, ranges[t])
    {
      var k :| SeenAt(log, q.l, k, t.start, ranges[t]);
      SeenLater(log, log', q.l, k, t.start, ranges[t]);
    }
  }

  lemma ExcusedLater(log: Log, log': Log, from: nat)
    requires Grows(log, log')
    ensures Excused(log, from) ==> Excused(log', from)
  {
    assert forall k :: 0 <= k < |log.states| ==> log'.states[k] == log.states[k];
    assert forall m :: 0 <= m < |log.commands| ==> log'.commands[m] == log.commands[m];
  }

  lemma RequestedOwn(log: Log, log': Log, from: nat, q: Question, w: Context, g: Option<Group>)
    requires OwnOrOthers(log, from, q.db, q.policy, w) && Requested(log, log', q, w, g)
    ensures OwnOrOthers(log', from, q.db, q.policy, w)
  {
    hide FirstLook, SecondLook;
    forall m | from <= m < |log'.commands|
      ensures OwnOrOther(log'.commands[m], q.db, q.policy, w)
    {
      if m < |log.commands| {
        assert log'.commands[m] == log.commands[m];
      } else if m < Before(log, q, w) {
        assert log'.commands[m] in w.others(2 * q.i);
      } else if m > Before(log, q, w) {
        assert log'.commands[m] in w.others(2 * q.i + 1);
      }
    }
  }

  /** When there is one window, its group is the answer to the first question. */
  ghost predicate OneQuestion(
    log: Log, log': Log, db: string, policy: string, l: Place, w: Context, ranges: Ranges)
  {
    forall t :: ranges.Keys == {t} ==> Requested(log, log', Question(db, policy, l, t.start, 0), w, ranges[t])
  }

  /**
   Requests the group of every window, in an arbitrary order and with any
   commands of others in between.
   */
  method CreateGroups(
    meta: ClusterData, log: Log, db: string, policy: string, l: Place, windows: set<TimeRange>, w: Context)
    returns (ranges: Ranges, log': Log)
    requires Shows(log, meta.Value()) && FindPolicy(log.states[0], db, policy) == Some(l)
    modifies meta
    ensures Shows(log', meta.Value()) && Grows(log, log')
    ensures ranges.Keys == windows && Recorded(log', |log.commands|, l, ranges, {})
    ensures OwnOrOthers(log', |log.commands|, db, policy, w)
    ensures OneQuestion(log, log', db, policy, l, w, ranges)
  {
    hide Step, Ready, FindPolicy, Recorded, Excused, OwnOrOther, Requested;
    ranges := map t | t in windows :: None;
    var todo := windows;
    log' := log;
    assert Recorded(log, |log.commands|, l, ranges, todo) by { NothingRecorded(log, l, ranges, todo); }
    var i := 0;
    while todo != {}
      invariant todo <= windows && ranges.Keys == windows && i >= 0
      invariant Shows(log', meta.Value()) && Grows(log, log')
      invariant Recorded(log', |log.commands|, l, ranges, todo)
      invariant OwnOrOthers(log', |log.commands|, db, policy, w)
      invariant todo == windows ==> log' == log && i == 0
      invariant todo != windows ==> todo == {} ==> OneQuestion(log, log', db, policy, l, w, ranges)
      decreases todo
    {
      var t :| t in todo;
      var q := Question(db, policy, l, t.start, i);
      ghost var before, was := log', ranges;
      var g;
      g, log' := RequestGroup(meta, log', q, w);
      RecordedMore(before, log', |log.commands|, q, w, ranges, todo, g);
      RequestedOwn(before, log', |log.commands|, q, w, g);
      ranges := ranges[t := g];
      todo := todo - {t};
      i := i + 1;
    }
  }

  lemma NothingRecorded(log: Log, l: Place, ranges: Ranges, todo: set<TimeRange>)
    requires todo == ranges.Keys
    ensures Recorded(log, |log.commands|, l, ranges, todo)
  {
  }
}
