/**
 The replication of metadata from a meta server to its clients: a long poll on
 the server, change channels on both sides, and commands that wait until the
 client has seen their effect.  Every lock-protected section is one step.
 */
module Replication {

  // ---------------------------------------------------------------- channels

  /** A signal: the current channel, and the channels that were closed. */
  datatype Signal = Signal(current: nat, closed: set<nat>)

  /** The current channel is closed, which wakes everyone who waits on it, and replaced by a new one. */
  function Fire(s: Signal): Signal {
    Signal(s.current + 1, s.closed + {s.current})
  }

  /** The current channel is open, and all channels before it were closed. */
  ghost predicate SignalOk(s: Signal) {
    forall c :: c in s.closed <==> 0 <= c < s.current
  }

  /** What a long poll or a waiter holds: a channel of its own that is closed already, or a shared one. */
  datatype Handle = Closed | Shared(ch: nat)

  predicate Fired(s: Signal, h: Handle) {
    h.Closed? || h.ch in s.closed
  }

  // ---------------------------------------------------------------- the server

  datatype Store = Store(index: nat, changed: Signal)

  /** Apply: the index of the log entry is recorded and the change is signalled. */
  function Apply(s: Store, logIndex: nat): Store {
    Store(logIndex, Fire(s.changed))
  }

  /** Restore replaces the data without a signal. */
  function Restore(s: Store, index: nat): Store {
    s.(index := index)
  }

  function AfterIndex(s: Store, index: nat): Handle {
    if index < s.index then Closed else Shared(s.changed.current)
  }

  /** A long poll: the index the client has, and the channel it waits on. */
  datatype Poll = Poll(index: nat, h: Handle)

  /** A poll that is still blocked has nothing to wait for but the next change. */
  ghost predicate PollOk(s: Store, p: Poll) {
    && (p.h.Shared? ==> p.h.ch <= s.changed.current)
    && (!Fired(s.changed, p.h) ==> s.index <= p.index)
  }

  datatype ServerState = ServerState(store: Store, polls: seq<Poll>)

  datatype ServerEvent = Ask(index: nat) | Applies(logIndex: nat) | Restores(index: nat)

  function ServerNext(s: ServerState, e: ServerEvent): ServerState {
    match e
    case Ask(index) => s.(polls := s.polls + [Poll(index, AfterIndex(s.store, index))])
    case Applies(logIndex) => s.(store := Apply(s.store, logIndex))
    case Restores(index) => s.(store := Restore(s.store, index))
  }

  ghost predicate NoPollLost(s: ServerState) {
    SignalOk(s.store.changed) && forall i :: 0 <= i < |s.polls| ==> PollOk(s.store, s.polls[i])
  }

  /** Some poll that is still blocked waits for an index below this one. */
  predicate Overtakes(s: ServerState, index: nat) {
    exists i :: 0 <= i < |s.polls| && !Fired(s.store.changed, s.polls[i].h) && s.polls[i].index < index
  }

  /** Applying never loses a wake-up; restoring does exactly when it passes over a poll that is still blocked. */
  lemma ServerStepIff(s: ServerState, e: ServerEvent)
    requires NoPollLost(s)
    ensures NoPollLost(ServerNext(s, e)) <==> !(e.Restores? && Overtakes(s, e.index))
  {
    var s' := ServerNext(s, e);
    match e
    case Ask(index) =>
    case Applies(logIndex) =>
      forall i | 0 <= i < |s.polls|
        ensures PollOk(s'.store, s.polls[i])
      {
        assert PollOk(s.store, s.polls[i]);
      }
    case Restores(index) =>
      assert forall i :: 0 <= i < |s.polls| ==> PollOk(s.store, s.polls[i]);
      if Overtakes(s, index) {
        var i :| 0 <= i < |s.polls| && !Fired(s.store.changed, s.polls[i].h) && s.polls[i].index < index;
        assert !PollOk(s'.store, s'.polls[i]);
      }
  }

  /** For example: a poll that has index 1 stays blocked while a restore takes the store from 1 to 5. */
  lemma RestoreLosesWakeUp()
    ensures var s := ServerState(Store(1, Signal(0, {})), [Poll(1, Shared(0))]);
            NoPollLost(s) && !NoPollLost(ServerNext(s, Restores(5)))
  {
    var s := ServerState(Store(1, Signal(0, {})), [Poll(1, Shared(0))]);
    ServerStepIff(s, Restores(5));
    assert !Fired(s.store.changed, s.polls[0].h) && s.polls[0].index < 5;
  }

  function ServerRun(s: ServerState, es: seq<ServerEvent>): ServerState
    decreases |es|
  {
    if es == [] then s else ServerRun(ServerNext(s, es[0]), es[1..])
  }

  /** In every run without a restore, a blocked long poll has an index that the store has not passed. */
  lemma {:induction false} NoLostPolls(s: ServerState, es: seq<ServerEvent>)
    requires NoPollLost(s) && forall i :: 0 <= i < |es| ==> !es[i].Restores?
    ensures NoPollLost(ServerRun(s, es))
    decreases |es|
  {
    if es == [] {
    } else {
      ServerStepIff(s, es[0]);
      NoLostPolls(ServerNext(s, es[0]), es[1..]);
    }
  }

  // ---------------------------------------------------------------- the client

  datatype Cache = Cache(index: nat, changed: Signal)

  /** A snapshot is installed whatever its index; only a larger one is signalled. */
  function Install(c: Cache, index: nat): Cache {
    Cache(index, if c.index < index then Fire(c.changed) else c.changed)
  }

  /** A caller of waitForIndex: about to look, blocked on a channel, or done. */
  datatype Waiter = Looking(target: nat) | Blocked(target: nat, ch: nat) | Done(target: nat)

  function Look(c: Cache, w: Waiter): Waiter
    requires w.Looking?
  {
    if c.index >= w.target then Done(w.target) else Blocked(w.target, c.changed.current)
  }

  ghost predicate WaiterOk(c: Cache, w: Waiter) {
    w.Blocked? ==>
      && w.ch <= c.changed.current
      && (w.ch !in c.changed.closed ==> c.index < w.target)
  }

  datatype ClientState = ClientState(cache: Cache, waiters: seq<Waiter>)

  datatype ClientEvent = Enter(target: nat) | Looks(i: nat) | Wakes(i: nat) | Installs(index: nat)

  predicate ClientEnabled(s: ClientState, e: ClientEvent) {
    match e
    case Enter(_) => true
    case Looks(i) => i < |s.waiters| && s.waiters[i].Looking?
    case Wakes(i) => i < |s.waiters| && s.waiters[i].Blocked? && s.waiters[i].ch in s.cache.changed.closed
    case Installs(_) => true
  }

  function ClientNext(s: ClientState, e: ClientEvent): ClientState
    requires ClientEnabled(s, e)
  {
    match e
    case Enter(target) => s.(waiters := s.waiters + [Looking(target)])
    case Looks(i) => s.(waiters := s.waiters[i := Look(s.cache, s.waiters[i])])
    case Wakes(i) => s.(waiters := s.waiters[i := Looking(s.waiters[i].target)])
    case Installs(index) => s.(cache := Install(s.cache, index))
  }

  ghost predicate NoWaiterLost(s: ClientState) {
    SignalOk(s.cache.changed) && forall i :: 0 <= i < |s.waiters| ==> WaiterOk(s.cache, s.waiters[i])
  }

  lemma ClientStep(s: ClientState, e: ClientEvent)
    requires NoWaiterLost(s) && ClientEnabled(s, e)
    ensures NoWaiterLost(ClientNext(s, e))
  {
    var s' := ClientNext(s, e);
    match e
    case Enter(target) =>
    case Looks(i) =>
    case Wakes(i) =>
    case Installs(index) =>
      forall i | 0 <= i < |s.waiters|
        ensures WaiterOk(s'.cache, s.waiters[i])
      {
        assert WaiterOk(s.cache, s.waiters[i]);
      }
  }

  ghost predicate ClientRuns(s: ClientState, es: seq<ClientEvent>, s': ClientState)
    decreases |es|
  {
    if es == [] then s' == s else ClientEnabled(s, es[0]) && ClientRuns(ClientNext(s, es[0]), es[1..], s')
  }

  /**
   In every run, with snapshots installed in any order and also stale ones, a
   waiter that is still blocked waits for an index that the cache has not reached.
   */
  lemma {:induction false} NoLostWaiters(s: ClientState, es: seq<ClientEvent>, s': ClientState)
    requires NoWaiterLost(s) && ClientRuns(s, es, s')
    ensures NoWaiterLost(s')
    decreases |es|
  {
    if es == [] {
    } else {
      ClientStep(s, es[0]);
      NoLostWaiters(ClientNext(s, es[0]), es[1..], s');
    }
  }

  // ---------------------------------------------------------------- the two objects

  /** The store of a meta server: the index of its data and the channel that signals a change. */
  class MetaStore {
    var term: nat
    var index: nat
    var dataChanged: nat
    var closed: set<nat>
    var made: nat              // channels made so far

    /** The current channel is the last one made, and exactly the others are closed. */
    ghost predicate Valid()
      reads this
    {
      made == dataChanged + 1 && SignalOk(Value().changed)
    }

    function Value(): Store
      reads this
    {
      Store(index, Signal(dataChanged, closed))
    }

    constructor ()
      ensures Valid() && Value() == Store(1, Signal(0, {}))
    {
      term, index := 0, 1;
      dataChanged, closed, made := 0, {}, 1;
    }

    /** The end of Apply, common to all commands: every long poll that was waiting is woken. */
    method ApplyEntry(logTerm: nat, logIndex: nat)
      requires Valid()
      modifies this
      ensures Valid() && term == logTerm && index == logIndex && Value() == Apply(old(Value()), logIndex)
      ensures forall p: Poll :: PollOk(old(Value()), p) ==> Fired(Value().changed, p.h) && PollOk(Value(), p)
    {
      term := logTerm;
      index := logIndex;
      closed := closed + {dataChanged};
      dataChanged := made;
      made := made + 1;
    }

    method LongPoll(clientIndex: nat) returns (h: Handle)
      requires Valid()
      ensures h == AfterIndex(Value(), clientIndex) && PollOk(Value(), Poll(clientIndex, h))
      ensures Fired(Value().changed, h) <==> clientIndex < index
    {
      if clientIndex < index {
        return Closed;
      }
      return Shared(dataChanged);
    }
  }

  /** The cache of a client, as far as waiting for an index is concerned. */
  class MetaClient {
    var index: nat
    var changed: nat
    var closed: set<nat>
    var made: nat

    ghost predicate Valid()
      reads this
    {
      made == changed + 1 && SignalOk(Value().changed)
    }

    function Value(): Cache
      reads this
    {
      Cache(index, Signal(changed, closed))
    }

    constructor (snapshot: nat)
      ensures Valid() && Value() == Cache(snapshot, Signal(0, {}))
    {
      index := snapshot;
      changed, closed, made := 0, {}, 1;
    }

    /** One round of the poll loop: the snapshot replaces the cache, and a larger index wakes every waiter. */
    method InstallSnapshot(snapshot: nat)
      requires Valid()
      modifies this
      ensures Valid() && index == snapshot && Value() == Install(old(Value()), snapshot)
      ensures snapshot <= old(index) ==> changed == old(changed) && closed == old(closed)
      ensures forall w: Waiter :: WaiterOk(old(Value()), w) ==> WaiterOk(Value(), w)
      ensures forall w: Waiter :: WaiterOk(old(Value()), w) && w.Blocked? && old(index) < snapshot ==> w.ch in closed
    {
      var idx := index;
      index := snapshot;
      if idx < snapshot {
        closed := closed + {changed};
        changed := made;
        made := made + 1;
      }
    }

    /** One round of waitForIndex: returns, or takes the channel to wait on. */
    method CheckIndex(target: nat) returns (w: Waiter)
      requires Valid()
      ensures w == Look(Value(), Looking(target)) && WaiterOk(Value(), w)
      ensures w.Done? <==> index >= target
    {
      if index >= target {
        return Done(target);
      }
      return Blocked(target, changed);
    }
  }

  // ---------------------------------------------------------------- one server, one client

  /** The client's poll loop: between polls, asking, waiting on the server, or holding the reply. */
  datatype Poller = Resting | Asking(index: nat) | Polling(p: Poll) | Fetched(index: nat, snapshot: nat)

  /** A command in retryUntilExec: applied at an index, answered with an index to wait for, or returned. */
  datatype Command = Applied(at: nat) | Waiting(at: nat, w: Waiter) | Returned(at: nat)

  datatype World = World(store: Store, cache: Cache, poller: Poller, commands: seq<Command>)

  datatype Event =
    | Execute(logIndex: nat)     // a command of this client is applied
    | OtherApplies(logIndex: nat)
    | Respond(i: nat)            // the server answers with its current index
    | WaitLooks(i: nat)
    | WaitWakes(i: nat)
    | WaitReturns(i: nat)
    | PollStarts                 // the client reads its own index
    | PollArrives                // the server looks at the index
    | PollReplies                // the channel was closed: the server takes a snapshot
    | PollRetries                // the request failed: ask again with the same index
    | PollInstalls

  predicate Enabled(x: World, e: Event) {
    match e
    case Execute(logIndex) => logIndex > x.store.index
    case OtherApplies(logIndex) => logIndex > x.store.index
    case Respond(i) => i < |x.commands| && x.commands[i].Applied?
    case WaitLooks(i) => i < |x.commands| && x.commands[i].Waiting? && x.commands[i].w.Looking?
    case WaitWakes(i) =>
      && i < |x.commands| && x.commands[i].Waiting?
      && x.commands[i].w.Blocked? && x.commands[i].w.ch in x.cache.changed.closed
    case WaitReturns(i) => i < |x.commands| && x.commands[i].Waiting? && x.commands[i].w.Done?
    case PollStarts => x.poller.Resting?
    case PollArrives => x.poller.Asking?
    case PollReplies => x.poller.Polling? && Fired(x.store.changed, x.poller.p.h)
    case PollRetries => x.poller.Polling?
    case PollInstalls => x.poller.Fetched?
  }

  function SetCommand(x: World, i: nat, c: Command): World
    requires i < |x.commands|
  {
    x.(commands := x.commands[i := c])
  }

  function Next(x: World, e: Event): World
    requires Enabled(x, e)
  {
    match e
    case Execute(logIndex) => x.(store := Apply(x.store, logIndex), commands := x.commands + [Applied(logIndex)])
    case OtherApplies(logIndex) => x.(store := Apply(x.store, logIndex))
    case Respond(i) => SetCommand(x, i, Waiting(x.commands[i].at, Looking(x.store.index)))
    case WaitLooks(i) => SetCommand(x, i, Waiting(x.commands[i].at, Look(x.cache, x.commands[i].w)))
    case WaitWakes(i) => SetCommand(x, i, Waiting(x.commands[i].at, Looking(x.commands[i].w.target)))
    case WaitReturns(i) => SetCommand(x, i, Returned(x.commands[i].at))
    case PollStarts => x.(poller := Asking(x.cache.index))
    case PollArrives => x.(poller := Polling(Poll(x.poller.index, AfterIndex(x.store, x.poller.index))))
    case PollReplies => x.(poller := Fetched(x.poller.p.index, x.store.index))
    case PollRetries => x.(poller := Asking(x.poller.p.index))
    case PollInstalls => x.(cache := Install(x.cache, x.poller.snapshot), poller := Resting)
  }

  ghost predicate PollerOk(x: World) {
    match x.poller
    case Resting => true
    case Asking(index) => index == x.cache.index
    case Polling(p) =>
      && p.index == x.cache.index && PollOk(x.store, p)
      && (Fired(x.store.changed, p.h) ==> x.store.index > p.index)
    case Fetched(index, snapshot) => index == x.cache.index && index < snapshot <= x.store.index
  }

  ghost predicate CommandOk(x: World, c: Command) {
    match c
    case Applied(at) => at <= x.store.index
    case Waiting(at, w) =>
      && at <= w.target <= x.store.index && WaiterOk(x.cache, w)
      && (w.Done? ==> w.target <= x.cache.index)
    case Returned(at) => at <= x.cache.index
  }

  ghost predicate WorldInv(x: World) {
    && SignalOk(x.store.changed) && SignalOk(x.cache.changed)
    && x.cache.index <= x.store.index
    && PollerOk(x)
    && forall i :: 0 <= i < |x.commands| ==> CommandOk(x, x.commands[i])
  }

  /** The store and the cache only move forward; what held of a command still holds. */
  ghost predicate Forward(x: World, x': World) {
    && x.store.index <= x'.store.index
    && x.cache.index <= x'.cache.index
    && (forall c :: c in x.cache.changed.closed ==> c in x'.cache.changed.closed)
    && x.cache.changed.current <= x'.cache.changed.current
    && (x'.cache.index != x.cache.index ==> x.cache.changed.current in x'.cache.changed.closed)
  }

  lemma CommandForward(x: World, x': World, c: Command)
    requires CommandOk(x, c) && Forward(x, x') && SignalOk(x.cache.changed)
    ensures CommandOk(x', c)
  {
  }

  lemma StepForward(x: World, e: Event)
    requires WorldInv(x) && Enabled(x, e)
    ensures Forward(x, Next(x, e))
    ensures SignalOk(Next(x, e).store.changed) && SignalOk(Next(x, e).cache.changed)
    ensures Next(x, e).cache.index <= Next(x, e).store.index && PollerOk(Next(x, e))
  {
    hide CommandOk;
  }

  lemma StepCommand(x: World, e: Event, i: nat)
    requires WorldInv(x) && Enabled(x, e) && i < |Next(x, e).commands|
    ensures CommandOk(Next(x, e), Next(x, e).commands[i])
  {
    var x' := Next(x, e);
    StepForward(x, e);
    if i < |x.commands| {
      assert CommandOk(x, x.commands[i]);
      if x'.commands[i] == x.commands[i] {
        hide CommandOk, Next, PollerOk;
        CommandForward(x, x', x.commands[i]);
      }
    }
  }

  lemma StepKeepsWorldInv(x: World, e: Event)
    requires WorldInv(x) && Enabled(x, e)
    ensures WorldInv(Next(x, e)) && Forward(x, Next(x, e))
    ensures e.Respond? ==> Next(x, e).commands[e.i] == Waiting(x.commands[e.i].at, Looking(x.store.index))
    ensures e.PollReplies? ==> Next(x, e).poller.Fetched? && Next(x, e).poller.snapshot == x.store.index
    ensures e.PollInstalls? ==> Next(x, e).cache.index == x.poller.snapshot > x.cache.index
  {
    StepForward(x, e);
    forall i | 0 <= i < |Next(x, e).commands|
      ensures CommandOk(Next(x, e), Next(x, e).commands[i])
    {
      StepCommand(x, e, i);
    }
  }

  ghost predicate Runs(x: World, es: seq<Event>, x': World)
    decreases |es|
  {
    if es == [] then x' == x else Enabled(x, es[0]) && Runs(Next(x, es[0]), es[1..], x')
  }

  /** Right after Open: the client holds a first snapshot of the server. */
  function Opened(index: nat): World {
    World(Store(index, Signal(0, {})), Cache(index, Signal(0, {})), Resting, [])
  }

  /**
   Read your writes, over every run with one server: the cached index never
   decreases, each poll installs a strictly larger one (StepKeepsWorldInv), and a
   command that returned left the cache at or beyond the command's own index.
   */
  lemma {:induction false} ReadYourWrites(x: World, es: seq<Event>, x': World, i: nat)
    requires WorldInv(x) && Runs(x, es, x')
    ensures WorldInv(x') && x.cache.index <= x'.cache.index
    ensures i < |x'.commands| && x'.commands[i].Returned? ==> x'.commands[i].at <= x'.cache.index
    decreases |es|
  {
    if es == [] {
      assert i < |x.commands| ==> CommandOk(x, x.commands[i]);
    } else {
      StepKeepsWorldInv(x, es[0]);
      hide WorldInv, Next;
      ReadYourWrites(Next(x, es[0]), es[1..], x', i);
    }
  }

  /** The same from the first snapshot on. */
  lemma ReadYourWritesFromOpen(index: nat, es: seq<Event>, x: World, i: nat)
    requires Runs(Opened(index), es, x)
    ensures index <= x.cache.index <= x.store.index
    ensures i < |x.commands| && x.commands[i].Returned? ==> x.commands[i].at <= x.cache.index
  {
    ReadYourWrites(Opened(index), es, x, i);
  }

  /**
   Nothing is stuck: a blocked command always has a change to wait for, and while
   the server is ahead of the client the poll loop has an enabled step.
   */
  lemma NeverStuck(x: World, i: nat)
    requires WorldInv(x) && i < |x.commands| && x.commands[i].Waiting? && x.commands[i].w.Blocked?
    ensures x.commands[i].w.ch in x.cache.changed.closed || x.cache.index < x.store.index
    ensures x.cache.index < x.store.index ==>
              Enabled(x, PollStarts) || Enabled(x, PollArrives) || Enabled(x, PollReplies) || Enabled(x, PollInstalls)
  {
    assert CommandOk(x, x.commands[i]);
  }
}
