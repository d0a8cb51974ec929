/**
 The bounded connection pool, as the atomic steps that its callers interleave:
 a Get looks at the channel of idle connections, then reads the counter, then
 creates a connection and counts it.
 */
module Pool {

  type Conn = nat

  /** A connection handed to a caller. */
  datatype Wrapper = Wrapper(conn: Conn, unusable: bool)

  /** How far a thread has come in its call of Get. */
  datatype Thread =
    | Ready         // not in a call
    | SawEmpty      // found no idle connection
    | Creating      // found the counter below the capacity, and will create
    | Waiting       // found the counter at the capacity, and waits

  datatype State = State(
    cap: nat,
    total: int,
    idle: seq<Conn>,
    out: map<nat, Wrapper>,
    threads: seq<Thread>,
    made: nat,           // connections created so far
    handed: nat)         // wrappers handed out so far

  datatype Event =
    | Grab(t: nat)            // an idle connection was there
    | Miss(t: nat)            // none was there
    | Load(t: nat)            // reads the counter
    | Create(t: nat)          // the factory made a connection
    | CreateFails(t: nat)
    | Receive(t: nat)         // a waiting caller gets a returned connection
    | Timeout(t: nat)
    | Put(w: nat)             // Close of a usable connection
    | MarkUnusable(w: nat)
    | Drop(w: nat)            // Close of an unusable connection

  predicate Enabled(s: State, e: Event) {
    match e
    case Grab(t) => t < |s.threads| && s.threads[t].Ready? && s.idle != []
    case Miss(t) => t < |s.threads| && s.threads[t].Ready? && s.idle == []
    case Load(t) => t < |s.threads| && s.threads[t].SawEmpty?
    case Create(t) => t < |s.threads| && s.threads[t].Creating?
    case CreateFails(t) => t < |s.threads| && s.threads[t].Creating?
    case Receive(t) => t < |s.threads| && s.threads[t].Waiting? && s.idle != []
    case Timeout(t) => t < |s.threads| && s.threads[t].Waiting?
    case Put(w) => w in s.out && !s.out[w].unusable
    case MarkUnusable(w) => w in s.out && !s.out[w].unusable
    case Drop(w) => w in s.out && s.out[w].unusable
  }

  function Hand(s: State, c: Conn): State {
    s.(out := s.out[s.handed := Wrapper(c, false)], handed := s.handed + 1)
  }

  function Next(s: State, e: Event): State
    requires Enabled(s, e)
  {
    match e
    case Grab(t) => Hand(s, s.idle[0]).(idle := s.idle[1..])
    case Miss(t) => s.(threads := s.threads[t := SawEmpty])
    case Load(t) => s.(threads := s.threads[t := if s.total < s.cap then Creating else Waiting])
    case Create(t) => Hand(s, s.made).(total := s.total + 1, made := s.made + 1, threads := s.threads[t := Ready])
    case CreateFails(t) => s.(threads := s.threads[t := Ready])
    case Receive(t) => Hand(s, s.idle[0]).(idle := s.idle[1..], threads := s.threads[t := Ready])
    case Timeout(t) => s.(threads := s.threads[t := Ready])
    case Put(w) =>
      var s' := s.(out := s.out - {w});
      if |s.idle| < s.cap then s'.(idle := s.idle + [s.out[w].conn]) else s'.(total := s.total - 1)
    case MarkUnusable(w) => s.(out := s.out[w := s.out[w].(unusable := true)], total := s.total - 1)
    case Drop(w) => s.(out := s.out - {w})
  }

  /** A pool filled with its initial connections, with k threads about to use it. */
  function Start(initialCap: nat, cap: nat, k: nat): State {
    State(cap, initialCap, seq(initialCap, i => i), map[], seq(k, i => Ready), initialCap, 0)
  }

  // ---------------------------------------------------------------- accounting

  function Usable(out: map<nat, Wrapper>): set<nat> {
    set w | w in out && !out[w].unusable
  }

  function CountCreating(threads: seq<Thread>): nat {
    if threads == [] then 0 else (if threads[0].Creating? then 1 else 0) + CountCreating(threads[1..])
  }

  /** No connection is in two places, and none is in a place before it was made. */
  ghost predicate Exclusive(s: State) {
    && (forall i :: 0 <= i < |s.idle| ==> s.idle[i] < s.made)
    && (forall w :: w in s.out ==> s.out[w].conn < s.made && w < s.handed)
    && (forall i, j :: 0 <= i < j < |s.idle| ==> s.idle[i] != s.idle[j])
    && (forall w, i :: w in s.out && 0 <= i < |s.idle| ==> s.out[w].conn != s.idle[i])
    && (forall v, w :: v in s.out && w in s.out && s.out[v].conn == s.out[w].conn ==> v == w)
  }

  ghost predicate Inv(s: State) {
    && Exclusive(s)
    && s.total == |s.idle| + |Usable(s.out)|
    && |s.idle| <= s.cap
    && (s.threads != [] ==> s.total + CountCreating(s.threads) <= s.cap + |s.threads| - 1)
    && (s.threads == [] ==> s.total <= s.cap)
  }

  lemma {:induction false} CreatingSet(threads: seq<Thread>, t: nat, x: Thread)
    requires t < |threads|
    ensures CountCreating(threads[t := x])
            == CountCreating(threads) - (if threads[t].Creating? then 1 else 0) + (if x.Creating? then 1 else 0)
  {
    if t > 0 {
      assert threads[t := x][1..] == threads[1..][t - 1 := x];
      CreatingSet(threads[1..], t - 1, x);
    } else {
      assert threads[0 := x][1..] == threads[1..];
    }
  }

  lemma {:induction false} CreatingBounded(threads: seq<Thread>)
    ensures CountCreating(threads) <= |threads|
    ensures (exists i :: 0 <= i < |threads| && !threads[i].Creating?) ==> CountCreating(threads) < |threads|
  {
    if threads == [] {
    } else {
      CreatingBounded(threads[1..]);
      if exists i :: 0 <= i < |threads| && !threads[i].Creating? {
        var i :| 0 <= i < |threads| && !threads[i].Creating?;
        if i > 0 {
          assert !threads[1..][i - 1].Creating?;
        }
      }
    }
  }

  lemma UsableHand(s: State, c: Conn)
    requires forall w :: w in s.out ==> w < s.handed
    ensures |Usable(Hand(s, c).out)| == |Usable(s.out)| + 1
  {
    assert Usable(Hand(s, c).out) == Usable(s.out) + {s.handed};
  }

  lemma UsableGone(out: map<nat, Wrapper>, w: nat)
    requires w in out
    ensures |Usable(out - {w})| == |Usable(out)| - (if out[w].unusable then 0 else 1)
    ensures !out[w].unusable ==> |Usable(out[w := out[w].(unusable := true)])| == |Usable(out)| - 1
  {
    if out[w].unusable {
      assert Usable(out - {w}) == Usable(out);
    } else {
      assert Usable(out - {w}) == Usable(out) - {w};
      assert Usable(out[w := out[w].(unusable := true)]) == Usable(out) - {w};
    }
  }

  lemma StartInv(initialCap: nat, cap: nat, k: nat)
    requires initialCap <= cap && cap > 0
    ensures Inv(Start(initialCap, cap, k))
    ensures var s := Start(initialCap, cap, k);
            && s.cap == cap && s.total == s.made == |s.idle| == initialCap && s.out == map[] && |s.threads| == k
            && (forall c :: 0 <= c < initialCap ==> c in s.idle)
            && (forall t :: 0 <= t < k ==> s.threads[t].Ready?)
  {
    NoneCreating(k);
    assert Usable(map[]) == {};
    var s := Start(initialCap, cap, k);
    forall c | 0 <= c < initialCap
      ensures c in s.idle
    {
      assert s.idle[c] == c;
    }
  }

  lemma {:induction false} NoneCreating(k: nat)
    ensures CountCreating(seq(k, i => Ready)) == 0
  {
    if k == 0 {
    } else {
      assert seq(k, i => Ready)[1..] == seq(k - 1, i => Ready);
      NoneCreating(k - 1);
    }
  }

  lemma SamePlaces(s: State, s': State)
    requires Exclusive(s) && s'.idle == s.idle && s'.out == s.out && s'.made == s.made && s'.handed == s.handed
    ensures Exclusive(s')
  {
  }

  lemma HandNew(s: State)
    requires Exclusive(s)
    ensures Exclusive(Hand(s, s.made).(made := s.made + 1))
  {
  }

  lemma HandIdle(s: State)
    requires Exclusive(s) && s.idle != []
    ensures Exclusive(Hand(s, s.idle[0]).(idle := s.idle[1..]))
  {
  }

  lemma TakenBack(s: State, w: nat)
    requires Exclusive(s) && w in s.out
    ensures Exclusive(s.(out := s.out - {w}))
    ensures Exclusive(s.(out := s.out - {w}, idle := s.idle + [s.out[w].conn]))
  {
  }

  lemma Marked(s: State, w: nat)
    requires Exclusive(s) && w in s.out
    ensures Exclusive(s.(out := s.out[w := s.out[w].(unusable := true)]))
  {
    var out := s.out[w := s.out[w].(unusable := true)];
    assert forall v :: v in out <==> v in s.out;
    assert forall v :: v in out ==> out[v].conn == s.out[v].conn;
  }

  lemma StepExclusive(s: State, e: Event)
    requires Exclusive(s) && Enabled(s, e)
    ensures Exclusive(Next(s, e))
  {
    hide Exclusive;
    var s' := Next(s, e);
    match e
    case Grab(t) => HandIdle(s);
    case Receive(t) =>
      HandIdle(s);
      SamePlaces(Hand(s, s.idle[0]).(idle := s.idle[1..]), s');
    case Create(t) =>
      HandNew(s);
      SamePlaces(Hand(s, s.made).(made := s.made + 1), s');
    case Put(w) =>
      TakenBack(s, w);
      var r := if |s.idle| < s.cap then s.(out := s.out - {w}, idle := s.idle + [s.out[w].conn])
               else s.(out := s.out - {w});
      SamePlaces(r, s');
    case MarkUnusable(w) =>
      Marked(s, w);
      SamePlaces(s.(out := s.out[w := s.out[w].(unusable := true)]), s');
    case Drop(w) => TakenBack(s, w);
    case Miss(t) => SamePlaces(s, s');
    case Load(t) => SamePlaces(s, s');
    case CreateFails(t) => SamePlaces(s, s');
    case Timeout(t) => SamePlaces(s, s');
  }

  /** The counter equals the idle and the usable lent connections after every step. */
  lemma StepTotal(s: State, e: Event)
    requires Inv(s) && Enabled(s, e)
    ensures Next(s, e).total == |Next(s, e).idle| + |Usable(Next(s, e).out)|
    ensures |Next(s, e).idle| <= s.cap
  {
    match e
    case Grab(t) => UsableHand(s, s.idle[0]);
    case Create(t) => UsableHand(s, s.made);
    case Receive(t) => UsableHand(s, s.idle[0]);
    case Put(w) => UsableGone(s.out, w);
    case MarkUnusable(w) => UsableGone(s.out, w);
    case Drop(w) => UsableGone(s.out, w);
    case Miss(t) =>
    case Load(t) =>
    case CreateFails(t) =>
    case Timeout(t) =>
  }

  /** Threads between their check and their creation are what can push the counter above the capacity. */
  lemma StepBound(s: State, e: Event)
    requires Inv(s) && Enabled(s, e)
    ensures var s' := Next(s, e);
            && (s'.threads != [] ==> s'.total + CountCreating(s'.threads) <= s'.cap + |s'.threads| - 1)
            && (s'.threads == [] ==> s'.total <= s'.cap)
  {
    hide Exclusive, Usable;
    match e
    case Miss(t) => CreatingSet(s.threads, t, SawEmpty);
    case Load(t) =>
      CreatingSet(s.threads, t, if s.total < s.cap then Creating else Waiting);
      CreatingBounded(s.threads);
    case Create(t) => CreatingSet(s.threads, t, Ready);
    case CreateFails(t) => CreatingSet(s.threads, t, Ready);
    case Receive(t) => CreatingSet(s.threads, t, Ready);
    case Timeout(t) => CreatingSet(s.threads, t, Ready);
    case Grab(t) =>
    case Put(w) =>
    case MarkUnusable(w) =>
    case Drop(w) =>
  }

  ghost predicate Runs(s: State, es: seq<Event>, s': State)
    decreases |es|
  {
    if es == [] then s' == s else Enabled(s, es[0]) && Runs(Next(s, es[0]), es[1..], s')
  }

  /**
   In every interleaving of k threads the counter is right, no more than cap
   connections are idle, no connection is lent twice, and at most cap + k - 1
   connections are counted; with one thread that is cap.
   */
  lemma {:induction false} Accounting(s: State, es: seq<Event>, s': State)
    requires Inv(s) && Runs(s, es, s')
    ensures Inv(s') && s'.cap == s.cap && |s'.threads| == |s.threads|
    ensures s.threads != [] ==> s'.total <= s.cap + |s.threads| - 1
    decreases |es|
  {
    hide Exclusive, Usable;
    if es == [] {
    } else {
      StepExclusive(s, es[0]);
      StepTotal(s, es[0]);
      StepBound(s, es[0]);
      assert Next(s, es[0]).cap == s.cap && |Next(s, es[0]).threads| == |s.threads|;
      Accounting(Next(s, es[0]), es[1..], s');
    }
  }

  // ---------------------------------------------------------------- what becomes of the connections

  /** A closed connection that is usable waits behind the idle ones, unless the pool is full of those. */
  lemma PutBackIff(s: State, w: nat)
    requires Exclusive(s) && Enabled(s, Put(w))
    ensures var s', c := Next(s, Put(w)), s.out[w].conn;
            && (c in s'.idle <==> |s.idle| < s.cap)
            && (if |s.idle| < s.cap then s'.idle == s.idle + [c] && s'.total == s.total
                else s'.idle == s.idle && s'.total == s.total - 1)
            && w !in s'.out && (forall v :: v != w ==> (v in s'.out <==> v in s.out))
            && (forall v :: v in s'.out ==> s'.out[v] == s.out[v])
  {
    assert s.out[w].conn !in s.idle;
  }

  /** What a caller gets out of the idle connections by a step. */
  function GivenBy(s: State, e: Event): seq<Conn>
    requires Enabled(s, e)
  {
    if e.Grab? || e.Receive? then [Next(s, e).out[s.handed].conn] else []
  }

  /** What goes back to the idle connections by a step. */
  function ReturnedBy(s: State, e: Event): seq<Conn>
    requires Enabled(s, e)
  {
    if e.Put? && |s.idle| < s.cap then [s.out[e.w].conn] else []
  }

  function Given(s: State, es: seq<Event>): seq<Conn>
    decreases |es|
  {
    if es == [] || !Enabled(s, es[0]) then [] else GivenBy(s, es[0]) + Given(Next(s, es[0]), es[1..])
  }

  function Returned(s: State, es: seq<Event>): seq<Conn>
    decreases |es|
  {
    if es == [] || !Enabled(s, es[0]) then [] else ReturnedBy(s, es[0]) + Returned(Next(s, es[0]), es[1..])
  }

  lemma StepOrder(s: State, e: Event)
    requires Enabled(s, e)
    ensures GivenBy(s, e) + Next(s, e).idle == s.idle + ReturnedBy(s, e)
  {
  }

  /** Idle connections are lent in the order in which they came back. */
  lemma {:induction false} FirstBackFirstLent(s: State, es: seq<Event>, s': State)
    requires Runs(s, es, s')
    ensures Given(s, es) + s'.idle == s.idle + Returned(s, es)
    decreases |es|
  {
    hide Next, Enabled, GivenBy, ReturnedBy;
    if es == [] {
    } else {
      var s1, given, returned := Next(s, es[0]), GivenBy(s, es[0]), ReturnedBy(s, es[0]);
      FirstBackFirstLent(s1, es[1..], s');
      StepOrder(s, es[0]);
      calc {
        Given(s, es) + s'.idle;
        given + (Given(s1, es[1..]) + s'.idle);
        given + (s1.idle + Returned(s1, es[1..]));
        (given + s1.idle) + Returned(s1, es[1..]);
        (s.idle + returned) + Returned(s1, es[1..]);
        s.idle + Returned(s, es);
      }
    }
  }

  function Lent(out: map<nat, Wrapper>): set<Conn> {
    set w | w in out :: out[w].conn
  }

  /** The connections closed by a step: a marked one, or one for which there was no room. */
  function ClosedBy(s: State, e: Event): set<Conn>
    requires Enabled(s, e)
  {
    if e.Drop? || (e.Put? && |s.idle| >= s.cap) then {s.out[e.w].conn} else {}
  }

  ghost function Closed(s: State, es: seq<Event>): set<Conn>
    decreases |es|
  {
    if es == [] || !Enabled(s, es[0]) then {} else ClosedBy(s, es[0]) + Closed(Next(s, es[0]), es[1..])
  }

  /** Every connection made is idle, lent or closed, and only one of these. */
  ghost predicate AllAccounted(s: State, closed: set<Conn>) {
    && (forall c: Conn :: c < s.made <==> c in s.idle || c in Lent(s.out) || c in closed)
    && (forall c: Conn :: c in closed ==> c !in s.idle && c !in Lent(s.out))
  }

  lemma StepAllAccounted(s: State, e: Event, closed: set<Conn>)
    requires Exclusive(s) && AllAccounted(s, closed) && Enabled(s, e)
    ensures AllAccounted(Next(s, e), closed + ClosedBy(s, e))
  {
    hide Lent;
    match e
    case Grab(t) => LentAdd(s, s.idle[0]);
    case Receive(t) => LentAdd(s, s.idle[0]);
    case Create(t) => LentAdd(s, s.made);
    case Put(w) => LentGone(s, w);
    case Drop(w) => LentGone(s, w);
    case MarkUnusable(w) => LentMarked(s.out, w);
    case Miss(t) =>
    case Load(t) =>
    case CreateFails(t) =>
    case Timeout(t) =>
  }

  lemma LentAdd(s: State, c: Conn)
    requires Exclusive(s)
    ensures Lent(Hand(s, c).out) == Lent(s.out) + {c}
  {
    var out := Hand(s, c).out;
    assert out[s.handed].conn == c;
    forall x | x in Lent(s.out)
      ensures x in Lent(out)
    {
      var w :| w in s.out && s.out[w].conn == x;
      assert w in out && out[w].conn == x;
    }
    forall x | x in Lent(out)
      ensures x in Lent(s.out) + {c}
    {
      var w :| w in out && out[w].conn == x;
      assert w != s.handed ==> w in s.out && s.out[w].conn == x;
    }
  }

  lemma LentGone(s: State, w: nat)
    requires Exclusive(s) && w in s.out
    ensures Lent(s.out - {w}) == Lent(s.out) - {s.out[w].conn}
    ensures s.out[w].conn in Lent(s.out)
  {
    var out := s.out - {w};
    forall x | x in Lent(s.out) - {s.out[w].conn}
      ensures x in Lent(out)
    {
      var v :| v in s.out && s.out[v].conn == x;
      assert v in out && out[v].conn == x;
    }
    forall x | x in Lent(out)
      ensures x in Lent(s.out) - {s.out[w].conn}
    {
      var v :| v in out && out[v].conn == x;
      assert v in s.out && s.out[v].conn == x;
    }
  }

  lemma LentMarked(out: map<nat, Wrapper>, w: nat)
    requires w in out
    ensures Lent(out[w := out[w].(unusable := true)]) == Lent(out)
  {
    var out' := out[w := out[w].(unusable := true)];
    forall x
      ensures x in Lent(out') <==> x in Lent(out)
    {
      if x in Lent(out) {
        var v :| v in out && out[v].conn == x;
        assert v in out' && out'[v].conn == x;
      }
      if x in Lent(out') {
        var v :| v in out' && out'[v].conn == x;
        assert v in out && out[v].conn == x;
      }
    }
  }

  /** Over every run, every connection made is idle, lent, or was closed as unusable or for want of room. */
  lemma {:induction false} NoneForgotten(s: State, es: seq<Event>, s': State, closed: set<Conn>)
    requires Exclusive(s) && AllAccounted(s, closed) && Runs(s, es, s')
    ensures AllAccounted(s', closed + Closed(s, es))
    decreases |es|
  {
    hide Exclusive, AllAccounted;
    if es == [] {
      assert closed + {} == closed;
    } else {
      StepExclusive(s, es[0]);
      StepAllAccounted(s, es[0], closed);
      NoneForgotten(Next(s, es[0]), es[1..], s', closed + ClosedBy(s, es[0]));
      hide Next, ClosedBy;
      assert closed + ClosedBy(s, es[0]) + Closed(Next(s, es[0]), es[1..]) == closed + Closed(s, es);
    }
  }

  /** The same from the start, when nothing is closed. */
  lemma NoneForgottenFromStart(initialCap: nat, cap: nat, k: nat, es: seq<Event>, s': State)
    requires initialCap <= cap && cap > 0 && Runs(Start(initialCap, cap, k), es, s')
    ensures AllAccounted(s', Closed(Start(initialCap, cap, k), es))
  {
    var s := Start(initialCap, cap, k);
    StartInv(initialCap, cap, k);
    assert Lent(s.out) == {};
    NoneForgotten(s, es, s', {});
    assert {} + Closed(s, es) == Closed(s, es);
  }

  // ---------------------------------------------------------------- one thread

  /** One thread that marks nothing unusable: whatever was made is still counted. */
  ghost predicate Alone(s: State) {
    Inv(s) && |s.threads| == 1 && s.made == s.total && forall w :: w in s.out ==> !s.out[w].unusable
  }

  lemma StepAlone(s: State, e: Event)
    requires Alone(s) && Enabled(s, e) && !e.MarkUnusable?
    ensures Alone(Next(s, e)) && Next(s, e).cap == s.cap
  {
    StepExclusive(s, e);
    StepTotal(s, e);
    StepBound(s, e);
    hide Exclusive;
    if e.Put? {
      assert e.w in Usable(s.out);
      assert |Usable(s.out)| >= 1;
    }
  }

  /** One thread that marks nothing unusable never makes more connections than the capacity. */
  lemma {:induction false} AloneMakesAtMostCap(s: State, es: seq<Event>, s': State)
    requires Alone(s) && Runs(s, es, s') && forall i :: 0 <= i < |es| ==> !es[i].MarkUnusable?
    ensures Alone(s') && s'.made <= s.cap
    decreases |es|
  {
    hide Exclusive, Usable;
    if es == [] {
    } else {
      StepAlone(s, es[0]);
      hide Alone;
      AloneMakesAtMostCap(Next(s, es[0]), es[1..], s');
    }
  }

  lemma StartAlone(initialCap: nat, cap: nat)
    requires initialCap <= cap && cap > 0
    ensures Alone(Start(initialCap, cap, 1))
  {
    StartInv(initialCap, cap, 1);
  }

  // ---------------------------------------------------------------- the bound is reached

  lemma {:induction false} RunsConcat(s: State, es: seq<Event>, m: State, fs: seq<Event>, s': State)
    requires Runs(s, es, m) && Runs(m, fs, s')
    ensures Runs(s, es + fs, s')
    decreases |es|
  {
    hide Next, Enabled;
    if es == [] {
      assert es + fs == fs;
    } else {
      assert (es + fs)[1..] == es[1..] + fs;
      RunsConcat(Next(s, es[0]), es[1..], m, fs, s');
    }
  }

  lemma RunsOne(s: State, e: Event)
    requires Enabled(s, e)
    ensures Runs(s, [e], Next(s, e))
  {
    hide Next, Enabled;
    assert [e][1..] == [];
  }

  /** One thread, alone, gets connections until n are counted. */
  lemma {:induction false} FillOneByOne(s: State, n: nat) returns (es: seq<Event>, s': State)
    requires s.threads != [] && s.threads[0].Ready? && s.idle == [] && 0 <= s.total <= n <= s.cap
    ensures Runs(s, es, s') && s'.total == n
    ensures s'.threads == s.threads && s'.idle == [] && s'.cap == s.cap
    decreases n - s.total
  {
    if s.total == n {
      es, s' := [], s;
    } else {
      var s1 := Next(s, Miss(0));
      var s2 := Next(s1, Load(0));
      var s3 := Next(s2, Create(0));
      assert s3.threads == s.threads;
      RunsOne(s, Miss(0));
      RunsOne(s1, Load(0));
      RunsOne(s2, Create(0));
      hide Next, Enabled;
      var rest;
      rest, s' := FillOneByOne(s3, n);
      RunsConcat(s2, [Create(0)], s3, rest, s');
      RunsConcat(s1, [Load(0)], s2, [Create(0)] + rest, s');
      RunsConcat(s, [Miss(0)], s1, [Load(0)] + ([Create(0)] + rest), s');
      es := [Miss(0)] + ([Load(0)] + ([Create(0)] + rest));
    }
  }

  /** Every thread from t on finds the counter below the capacity before any of them creates. */
  lemma {:induction false} AllPass(s: State, t: nat) returns (es: seq<Event>, s': State)
    requires t <= |s.threads| && s.idle == [] && s.total < s.cap
    requires forall i :: t <= i < |s.threads| ==> s.threads[i].Ready?
    ensures Runs(s, es, s') && s' == s.(threads := s'.threads) && |s'.threads| == |s.threads|
    ensures forall i :: 0 <= i < t ==> s'.threads[i] == s.threads[i]
    ensures forall i :: t <= i < |s.threads| ==> s'.threads[i].Creating?
    decreases |s.threads| - t
  {
    if t == |s.threads| {
      es, s' := [], s;
    } else {
      var s1 := Next(s, Miss(t));
      var s2 := Next(s1, Load(t));
      RunsOne(s, Miss(t));
      RunsOne(s1, Load(t));
      hide Next, Enabled;
      var rest;
      rest, s' := AllPass(s2, t + 1);
      RunsConcat(s1, [Load(t)], s2, rest, s');
      RunsConcat(s, [Miss(t)], s1, [Load(t)] + rest, s');
      es := [Miss(t)] + ([Load(t)] + rest);
    }
  }

  /** Then every thread from t on creates. */
  lemma {:induction false} AllCreate(s: State, t: nat) returns (es: seq<Event>, s': State)
    requires t <= |s.threads| && forall i :: t <= i < |s.threads| ==> s.threads[i].Creating?
    ensures Runs(s, es, s') && s'.total == s.total + |s.threads| - t
    decreases |s.threads| - t
  {
    if t == |s.threads| {
      es, s' := [], s;
    } else {
      var s1 := Next(s, Create(t));
      RunsOne(s, Create(t));
      hide Next, Enabled;
      var rest;
      rest, s' := AllCreate(s1, t + 1);
      RunsConcat(s, [Create(t)], s1, rest, s');
      es := [Create(t)] + rest;
    }
  }

  /** The bound is exact: for every capacity and every number of threads some interleaving reaches it. */
  lemma BoundReached(cap: nat, k: nat) returns (es: seq<Event>, s': State)
    requires cap > 0 && k > 0
    ensures Runs(Start(0, cap, k), es, s') && s'.total == cap + k - 1
  {
    var s := Start(0, cap, k);
    assert s.idle == [] && forall i :: 0 <= i < k ==> s.threads[i] == Ready;
    var es1, s1 := FillOneByOne(s, cap - 1);
    var es2, s2 := AllPass(s1, 0);
    var es3, s3 := AllCreate(s2, 0);
    RunsConcat(s1, es2, s2, es3, s3);
    RunsConcat(s, es1, s1, es2 + es3, s3);
    es, s' := es1 + (es2 + es3), s3;
  }
}
