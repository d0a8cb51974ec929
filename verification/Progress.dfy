/** Every command of a client can return: by its own steps and those of the poll loop alone. */
module Progress {
  import opened Options
  import opened Replication

  lemma RunsCons(x: World, e: Event, es: seq<Event>, x': World)
    requires Enabled(x, e) && Runs(Next(x, e), es, x')
    ensures Runs(x, [e] + es, x')
  {
    hide Next, Enabled;
    assert ([e] + es)[1..] == es;
  }

  predicate ByPoller(e: Event) {
    e.PollStarts? || e.PollArrives? || e.PollReplies? || e.PollInstalls?
  }

  /** The poll loop has a next step while the server is ahead. */
  function NextPoll(x: World): Event {
    match x.poller
    case Resting => PollStarts
    case Asking(_) => PollArrives
    case Polling(_) => PollReplies
    case Fetched(_, _) => PollInstalls
  }

  function PollsLeft(x: World): nat {
    match x.poller
    case Resting => 4
    case Asking(_) => 3
    case Polling(_) => 2
    case Fetched(_, _) => 1
  }

  lemma PollStep(x: World)
    requires WorldInv(x) && x.cache.index < x.store.index
    ensures Enabled(x, NextPoll(x))
    ensures var x' := Next(x, NextPoll(x));
            && x'.store == x.store && x'.commands == x.commands
            && if x.poller.Fetched?
               then x'.cache.index > x.cache.index && x.cache.changed.current in x'.cache.changed.closed
               else x'.cache == x.cache && PollsLeft(x') < PollsLeft(x)
  {
  }

  /**
   While the server is ahead, the poll loop alone installs a larger index,
   which closes the channel of all waiters.
   */
  lemma {:induction false} PollOnce(x: World) returns (es: seq<Event>, x': World)
    requires WorldInv(x) && x.cache.index < x.store.index
    ensures Runs(x, es, x') && WorldInv(x') && forall k :: 0 <= k < |es| ==> ByPoller(es[k])
    ensures x'.store == x.store && x'.commands == x.commands && x'.cache.index > x.cache.index
    ensures x.cache.changed.current in x'.cache.changed.closed
    decreases PollsLeft(x)
  {
    PollStep(x);
    StepKeepsWorldInv(x, NextPoll(x));
    var y := Next(x, NextPoll(x));
    var rest;
    if x.poller.Fetched? {
      rest, x' := [], y;
    } else {
      hide Next, WorldInv;
      rest, x' := PollOnce(y);
    }
    RunsCons(x, NextPoll(x), rest, x');
    es := [NextPoll(x)] + rest;
  }

  lemma {:induction false} RunsConcat(x: World, es: seq<Event>, y: World, fs: seq<Event>, z: World)
    requires Runs(x, es, y) && Runs(y, fs, z)
    ensures Runs(x, es + fs, z)
    decreases |es|
  {
    hide Next, Enabled;
    if es == [] {
      assert es + fs == fs;
    } else {
      RunsConcat(Next(x, es[0]), es[1..], y, fs, z);
      assert es + fs == [es[0]] + (es[1..] + fs);
      RunsCons(x, es[0], es[1..] + fs, z);
    }
  }

  /** How far a command is from returning, with the same index in the cache. */
  function WaitLeft(x: World, c: Command): nat {
    match c
    case Applied(_) => 5
    case Returned(_) => 0
    case Waiting(_, w) =>
      match w
      case Done(_) => 1
      case Looking(t) => if x.cache.index >= t then 2 else 4
      case Blocked(_, ch) => if ch in x.cache.changed.closed then (if x.cache.index >= w.target then 3 else 5) else 3
  }

  /** The command's own next step, if it has one. */
  function NextWait(x: World, i: nat): Option<Event>
    requires i < |x.commands|
  {
    match x.commands[i]
    case Applied(_) => Some(Respond(i))
    case Returned(_) => None
    case Waiting(_, w) =>
      match w
      case Done(_) => Some(WaitReturns(i))
      case Looking(_) => Some(WaitLooks(i))
      case Blocked(_, ch) => if ch in x.cache.changed.closed then Some(WaitWakes(i)) else None
  }

  lemma WaitStep(x: World, i: nat)
    requires WorldInv(x) && i < |x.commands| && NextWait(x, i).Some?
    ensures Enabled(x, NextWait(x, i).value)
    ensures var x' := Next(x, NextWait(x, i).value);
            && |x'.commands| == |x.commands| && x'.store == x.store && x'.cache == x.cache
            && WaitLeft(x', x'.commands[i]) < WaitLeft(x, x.commands[i])
  {
    assert CommandOk(x, x.commands[i]);
  }

  predicate Helps(e: Event, i: nat) {
    ByPoller(e) || e == Respond(i) || e == WaitLooks(i) || e == WaitWakes(i) || e == WaitReturns(i)
  }

  /**
   From every state of every run, a command can return by its own steps and those
   of the poll loop alone, and then the cache shows it.
   */
  lemma {:induction false} CommandReturns(x: World, i: nat) returns (es: seq<Event>, x': World)
    requires WorldInv(x) && i < |x.commands|
    ensures Runs(x, es, x') && WorldInv(x') && forall k :: 0 <= k < |es| ==> Helps(es[k], i)
    ensures |x'.commands| == |x.commands| && x'.store == x.store
    ensures x'.commands[i].Returned? && x'.commands[i].at <= x'.cache.index
    decreases x.store.index - x.cache.index, WaitLeft(x, x.commands[i])
  {
    assert CommandOk(x, x.commands[i]) && x.cache.index <= x.store.index;
    if x.commands[i].Returned? {
      es, x' := [], x;
    } else if NextWait(x, i).Some? {
      var e := NextWait(x, i).value;
      WaitStep(x, i);
      StepKeepsWorldInv(x, e);
      hide Next, WorldInv, CommandOk, WaitLeft;
      es, x' := CommandReturns(Next(x, e), i);
      RunsCons(x, e, es, x');
      es := [e] + es;
    } else {
      NeverStuck(x, i);
      hide Next, CommandOk, WaitLeft;
      var ps, y := PollOnce(x);
      assert y.cache.index <= y.store.index;
      hide WorldInv;
      es, x' := CommandReturns(y, i);
      RunsConcat(x, ps, y, es, x');
      es := ps + es;
    }
  }
}
