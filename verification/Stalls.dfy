/**
 When the reader of a hinted-handoff queue is told that there is no data
 although there is, how the queue gets there and out again, and when sending
 alone empties it.
 */
module Stalls {
  import opened SegmentFormat
  import opened SegmentNames
  import opened QueueModel
  import opened QueueProofs
  import opened QueuePurge
  import opened QueueReopen
  import opened Handoff

  // ---------------------------------------------------------------- one step

  /** A stored block goes behind a drained head: into a later segment, or into a new one. */
  predicate WritesBehind(q: State, b: Block)
    requires q.segs != []
  {
    Stores(q, b) && Drained(q.segs[0]) && (|q.segs| > 1 || SegmentFull(q, q.segs[0], b))
  }

  /** The first segment that survives a purge has nothing to read, although data is waiting. */
  predicate PurgeMeetsGap(q: State, cutoff: int) {
    var k := OldPrefix(q.segs, cutoff);
    k < |q.segs| && Drained(q.segs[k]) && UnreadAll(q.segs[k..]) != []
  }

  /** What must hold before a step for the queue to be stalled after it. */
  predicate LeadsToStall(q: State, e: Event)
    requires q.segs != []
  {
    match e
    case Write(b, _) => Stalled(q) || WritesBehind(q, b)
    case Read => Stalled(q)
    case Fail => Stalled(q)
    case Finish(_, _) => AdvanceMeetsGap(q)
    case Purge(cutoff, _, _) => PurgeMeetsGap(q, cutoff)
    case Reopen(_) => FindsGap(q)
  }

  lemma WriteStallsIff(q: State, b: Block, now: int)
    requires Shape(q)
    ensures Stalled(Append(q, b, now).0) <==> Stalled(q) || WritesBehind(q, b)
  {
    hide Usage, MaxId, DistinctIds, UnreadAll;
    AppendRefines(q, b, now);
    if |q.segs| == 1 && Drained(q.segs[0]) {
      NothingUnread(q.segs);
    }
  }

  lemma PurgeStallsIff(q: State, cutoff: int, now: int, spins: nat)
    requires Shape(q)
    ensures Stalled(QueueModel.Purge(q, cutoff, now, spins)) <==> PurgeMeetsGap(q, cutoff)
  {
    hide UnreadAll, DistinctIds, MaxId, OldPrefix;
    PurgeRefines(q, cutoff, now, spins, OldPrefix(q.segs, cutoff));
  }

  /** Exactly when a queue is stalled after a step, for every step in every reachable state. */
  lemma StallsIff(n: Node, e: Event)
    requires Accounted(n) && Enabled(n, e)
    ensures Stalled(Next(n, e).q) <==> LeadsToStall(n.q, e)
  {
    hide Append, Current, Advance, QueueReopen.Reopen, QueueModel.Purge;
    hide Bounded, CachesRight, Blocks, UnreadAll, DistinctIds;
    hide WritesBehind, PurgeMeetsGap, AdvanceMeetsGap, FindsGap, Stalled;
    match e
    case Write(b, now) => WriteStallsIff(n.q, b, now);
    case Read => CurrentRefines(n.q);
    case Fail =>
    case Finish(_, now) => AdvanceStallsIff(n.q, now);
    case Purge(cutoff, now, spins) => PurgeStallsIff(n.q, cutoff, now, spins);
    case Reopen(now) => ReopenStallsIff(n.q, now);
  }

  // ---------------------------------------------------------------- gaps

  /** The step leaves no drained segment behind the head. */
  predicate LeavesNoGap(q: State, e: Event) {
    match e
    case Write(b, _) => !Oversized(q, b)
    case Reopen(_) => Stalled(q) ==> HeadListedFirst(q)
    case _ => true
  }

  /**
   When only the head can be drained, this is exactly kept by a step that
   writes no oversized block and lists a drained head first.
   */
  lemma GapsIff(n: Node, e: Event)
    requires Accounted(n) && NoGap(n.q) && Enabled(n, e)
    ensures NoGap(Next(n, e).q) <==> LeavesNoGap(n.q, e)
  {
    hide Append, Current, Advance, QueueReopen.Reopen, QueueModel.Purge;
    hide Bounded, CachesRight, Blocks, UnreadAll, DistinctIds;
    hide Oversized, HeadListedFirst, Stalled;
    match e
    case Write(b, now) => AppendGapIff(n.q, b, now);
    case Read => CurrentRefines(n.q);
    case Fail =>
    case Finish(_, now) => AdvanceRefines(n.q, now);
    case Purge(cutoff, now, spins) => PurgeKeepsInv(n.q, cutoff, now, spins);
    case Reopen(now) => ReopenGapIff(n.q, now);
  }

  /** Without gaps, only a write can stall a queue: one that opens a second segment while the only one is drained. */
  predicate StallingWrite(q: State, e: Event) {
    && e.Write? && q.segs != [] && Stores(q, e.b)
    && |q.segs| == 1 && Drained(q.segs[0]) && SegmentFull(q, q.segs[0], e.b)
  }

  lemma StallsWithoutGapsIff(n: Node, e: Event)
    requires Accounted(n) && NoGap(n.q) && !Stalled(n.q) && Enabled(n, e)
    ensures Stalled(Next(n, e).q) <==> StallingWrite(n.q, e)
  {
    StallsIff(n, e);
    if |n.q.segs| > 1 && Drained(n.q.segs[0]) {
      SecondUnread(n.q);
    }
    match e
    case Purge(cutoff, now, spins) =>
      var k := OldPrefix(n.q.segs, cutoff);
      assert k == 0 ==> n.q.segs[k..] == n.q.segs;
    case Reopen(now) => ReopenGapIff(n.q, now);
    case _ =>
  }

  // ---------------------------------------------------------------- runs without gaps

  /** Ids of one width ascend. */
  ghost predicate Ascending(segs: seq<Seg>) {
    forall i, j :: 0 <= i < j < |segs| && |Name(segs[i].id)| == |Name(segs[j].id)| ==> segs[i].id < segs[j].id
  }

  predicate SameWidth(q: State) {
    forall i :: 1 <= i < |q.segs| ==> |Name(q.segs[0].id)| == |Name(q.segs[i].id)|
  }

  lemma ListedAscending(segs: seq<Seg>)
    requires Listed(segs)
    ensures Ascending(segs)
  {
    hide Name;
    forall i, j | 0 <= i < j < |segs| && |Name(segs[i].id)| == |Name(segs[j].id)|
      ensures segs[i].id < segs[j].id
    {
      SameWidthOrder(segs[i].id, segs[j].id);
    }
  }

  lemma AscendingHeadFirst(q: State)
    requires Ascending(q.segs) && SameWidth(q)
    ensures HeadListedFirst(q)
  {
    hide Name, Earlier;
    forall i | 1 <= i < |q.segs|
      ensures Earlier(q.segs[0].id, q.segs[i].id)
    {
      SameWidthOrder(q.segs[0].id, q.segs[i].id);
    }
  }

  lemma AppendAscending(q: State, b: Block, now: int)
    requires Shape(q) && Ascending(q.segs)
    ensures Ascending(Append(q, b, now).0.segs)
  {
    hide Usage, MaxId, DistinctIds, Name;
    forall i | 0 <= i < |q.segs|
      ensures q.segs[i].id < MaxId(q.segs) + 1
    {
      MaxIdIsMax(q.segs, i);
    }
  }

  /** Every step keeps ids of one width ascending, reopenings in whatever order included. */
  lemma StepAscending(n: Node, e: Event)
    requires Accounted(n) && Enabled(n, e) && Ascending(n.q.segs)
    ensures Ascending(Next(n, e).q.segs)
  {
    hide Append, Current, Bounded, CachesRight, Blocks, UnreadAll, DistinctIds, QueueReopen.Reopen, MaxId, PurgedAll;
    match e
    case Write(b, now) => AppendAscending(n.q, b, now);
    case Read => CurrentRefines(n.q);
    case Fail =>
    case Finish(_, now) =>
    case Purge(cutoff, now, spins) =>
    case Reopen(now) => ReopenAscending(n.q, now);
  }

  lemma ReopenAscending(q: State, now: int)
    requires Inv(q) && Ascending(q.segs)
    ensures Ascending(QueueReopen.Reopen(q, now).segs)
  {
    hide Bounded, CachesRight, UnreadAll, DistinctIds, Name, Found, MaxId;
    FoundShape(q, now);
    FoundElements(q);
    ListedAscending(Found(q));
  }

  /** Writes fit a segment, and a stalled queue is reopened only while its ids have one width. */
  predicate Careful(q: State, e: Event) {
    && (e.Write? ==> 8 + |e.b| <= q.maxSegmentSize)
    && (e.Reopen? ==> !Stalled(q) || SameWidth(q))
  }

  ghost predicate CarefulRun(n: Node, es: seq<Event>)
    decreases |es|
  {
    || es == []
    || (n.q.open && n.q.segs != [] && Enabled(n, es[0]) && Careful(n.q, es[0]) && CarefulRun(Next(n, es[0]), es[1..]))
  }

  lemma {:induction false} CarefulKeeps(n: Node, es: seq<Event>, n': Node)
    requires Accounted(n) && NoGap(n.q) && Ascending(n.q.segs) && Runs(n, es, n') && CarefulRun(n, es)
    ensures Accounted(n') && NoGap(n'.q)
    decreases |es|
  {
    hide Accounted, NoGap, Ascending, Next, Stalled, SameWidth, Enabled, HeadListedFirst;
    if es == [] {
    } else {
      StepAccounts(n, es[0]);
      StepAscending(n, es[0]);
      if SameWidth(n.q) {
        AscendingHeadFirst(n.q);
      }
      GapsIff(n, es[0]);
      CarefulKeeps(Next(n, es[0]), es[1..], n');
    }
  }

  /** In every careful run from an empty directory, only the head can be drained. */
  lemma NoGapInRuns(maxSegmentSize: int, maxSize: int, now: int, es: seq<Event>, n: Node)
    requires maxSegmentSize >= 0 && maxSize >= 0
    requires Runs(Start(maxSegmentSize, maxSize, now), es, n) && CarefulRun(Start(maxSegmentSize, maxSize, now), es)
    ensures Accounted(n) && NoGap(n.q)
  {
    StartInv(maxSegmentSize, maxSize, now);
    CarefulKeeps(Start(maxSegmentSize, maxSize, now), es, n);
  }

  /** In every careful run, a step stalls the queue if and only if it is a stalling write. */
  lemma StallsInRunsIff(maxSegmentSize: int, maxSize: int, now: int, es: seq<Event>, n: Node, e: Event)
    requires maxSegmentSize >= 0 && maxSize >= 0
    requires Runs(Start(maxSegmentSize, maxSize, now), es, n) && CarefulRun(Start(maxSegmentSize, maxSize, now), es)
    requires !Stalled(n.q) && Enabled(n, e)
    ensures n.q.open && n.q.segs != []
    ensures Stalled(Next(n, e).q) <==> StallingWrite(n.q, e)
  {
    NoGapInRuns(maxSegmentSize, maxSize, now, es, n);
    OpenWithSegments(n);
    StallsWithoutGapsIff(n, e);
  }

  // ---------------------------------------------------------------- concrete runs

  /** Two blocks that fit a segment each but not one together are enough for a stall. */
  lemma StallReachable(b: Block, c: Block, maxSegmentSize: int, maxSize: int) returns (n: Node)
    requires b != [] && c != [] && 8 + |b| <= maxSegmentSize && 8 + |c| <= maxSegmentSize < 16 + |b| + |c|
    requires maxSize >= 16 + |b| + |c|
    ensures Runs(Start(maxSegmentSize, maxSize, 0), [Write(b, 0), Read, Finish(true, 0), Write(c, 0)], n)
    ensures Stalled(n.q) && Contents(n.q) == [c] && Current(n.q).1 == EOF
  {
    var n0 := Start(maxSegmentSize, maxSize, 0);
    var s1 := AppendSeg(Fresh(1, 0), b, 0);
    FirstWrite(b, maxSegmentSize, maxSize);
    var n1 := Next(n0, Write(b, 0));
    OnlyBlockSent(n1, b, s1);
    hide Next, Runs;
    var n3 := Next(Next(n1, Read), Finish(true, 0));
    n := FinalStall(n3, c, b, AdvanceSeg(s1, 0));
    RunsFour(n0, Write(b, 0), Read, Finish(true, 0), Write(c, 0));
  }

  lemma FirstWrite(b: Block, maxSegmentSize: int, maxSize: int)
    requires b != [] && 8 + |b| <= maxSegmentSize && 8 + |b| <= maxSize
    ensures var n := Start(maxSegmentSize, maxSize, 0);
            && n.q.open && n.q.segs != []
            && Accounted(Next(n, Write(b, 0))) && Next(n, Write(b, 0)).sender.Idle?
            && Next(n, Write(b, 0)).q == State(true, [AppendSeg(Fresh(1, 0), b, 0)], false, maxSegmentSize, maxSize)
  {
    StartInv(maxSegmentSize, maxSize, 0);
    var n := Start(maxSegmentSize, maxSize, 0);
    assert n.q.segs == [Fresh(1, 0)];
    UsageOne(Fresh(1, 0));
    WriteStep(n, b, 0);
  }

  lemma OnlyBlockSent(n: Node, b: Block, s: Seg)
    requires Accounted(n) && n.sender.Idle? && n.q.segs == [s] && s.blocks == [b] && s.head == 0
    ensures var m := Next(n, Read);
            && m.q == n.q && m.sender == Holding(b)
            && Accounted(Next(m, Finish(true, 0)))
            && Next(m, Finish(true, 0)).q == n.q.(segs := [AdvanceSeg(s, 0)])
  {
    UnreadOne(s);
    assert Contents(n.q) == [b] && !Stalled(n.q);
    AdvanceOnly(n.q, s);
    hide Advance, AdvanceSeg, Accounted, Current;
    ReadEffect(n);
    ReadGets(n);
    FinishEffect(Next(n, Read), true, 0);
  }

  lemma AdvanceOnly(q: State, s: Seg)
    requires q.open && q.segs == [s]
    ensures Advance(q, 0).0 == q.(segs := [AdvanceSeg(s, 0)])
  {
    assert [AdvanceSeg(s, 0)] + q.segs[1..] == [AdvanceSeg(s, 0)];
  }

  lemma FinalStall(n3: Node, c: Block, b: Block, s: Seg) returns (n: Node)
    requires Accounted(n3) && n3.q.segs == [s] && Drained(s) && s.blocks == [b] && !n3.q.stale && c != []
    requires 8 + |c| <= n3.q.maxSegmentSize < 16 + |b| + |c| && n3.q.maxSize >= 16 + |b| + |c|
    ensures n == Next(n3, Write(c, 0)) && Stalled(n.q) && Contents(n.q) == [c] && Current(n.q).1 == EOF
  {
    UsageOne(s);
    UnreadOne(s);
    EncodeSnoc([], b);
    assert [] + [b] == [b];
    assert Size(s) == 16 + |b|;
    hide Append, Bounded, CachesRight, DistinctIds;
    AppendRefines(n3.q, c, 0);
    WriteStallsIff(n3.q, c, 0);
    n := Next(n3, Write(c, 0));
  }

  lemma RunsFour(n: Node, a: Event, b: Event, c: Event, d: Event)
    requires n.q.open && n.q.segs != [] && Enabled(n, a)
    requires var m := Next(n, a); m.q.open && m.q.segs != [] && Enabled(m, b)
    requires var m := Next(Next(n, a), b); m.q.open && m.q.segs != [] && Enabled(m, c)
    requires var m := Next(Next(Next(n, a), b), c); m.q.open && m.q.segs != [] && Enabled(m, d)
    ensures Runs(n, [a, b, c, d], Next(Next(Next(Next(n, a), b), c), d))
  {
    hide Next, Enabled;
    var m := Next(Next(n, a), b);
    var n' := Next(Next(m, c), d);
    assert [c, d] == [c, d] + [];
    RunsTwo(m, c, d, [], n');
    assert [a, b, c, d] == [a, b] + [c, d];
    RunsTwo(n, a, b, [c, d], n');
  }

  lemma AddsSecond(q: State, s: Seg)
    requires q.segs == [s]
    ensures AddSegment(q, 0).segs == [s, Fresh(s.id + 1, 0)] && Usage(AddSegment(q, 0).segs) == Size(s) + 8
  {
    MaxIdOrdered(q);
    UsageOne(s);
    AddSegmentTotals(q, 0);
  }

  lemma AddsThird(q: State, s: Seg)
    requires q.segs == [s, Fresh(s.id + 1, 0)]
    ensures AddSegment(q, 0).segs == [s, Fresh(s.id + 1, 0), Fresh(s.id + 2, 0)]
    ensures Usage(AddSegment(q, 0).segs) == Usage(q.segs) + 8
  {
    MaxIdOrdered(q);
    AddSegmentTotals(q, 0);
  }

  lemma OversizedWrite(n: Node, b: Block)
    requires n.q.open && n.q.segs != [] && Oversized(n.q, b) && b != []
    ensures Next(n, Write(b, 0)) == n.(q := AddSegment(n.q, 0))
  {
  }

  /** Two refused writes put an empty segment between two blocks. */
  lemma GapWrites(n: Node, s: Seg, big: Block, c: Block) returns (m: Node)
    requires Accounted(n) && n.q.segs == [s] && !n.q.stale && !Drained(s) && c != []
    requires 8 + |c| <= n.q.maxSegmentSize < 8 + |big|
    requires Size(s) + 8 + |big| <= n.q.maxSize && Size(s) + 16 + |c| <= n.q.maxSize
    ensures m == Next(Next(Next(n, Write(big, 0)), Write(big, 0)), Write(c, 0)) && Accounted(m) && m.sender == n.sender
    ensures Next(n, Write(big, 0)).q.segs != [] && Next(n, Write(big, 0)).q.open
    ensures Next(Next(n, Write(big, 0)), Write(big, 0)).q.segs != []
    ensures Next(Next(n, Write(big, 0)), Write(big, 0)).q.open
    ensures m.q.open && m.q.segs == [s, Fresh(s.id + 1, 0), AppendSeg(Fresh(s.id + 2, 0), c, 0)]
  {
    hide Accounted, Usage, Next, MaxId;
    assert n.q.open by { OpenWithSegments(n); }
    UsageOne(s);
    AddsSecond(n.q, s);
    OversizedWrite(n, big);
    StepAccounts(n, Write(big, 0));
    var n2 := Next(n, Write(big, 0));
    AddsThird(n2.q, s);
    OversizedWrite(n2, big);
    StepAccounts(n2, Write(big, 0));
    var n3 := Next(n2, Write(big, 0));
    StepAccounts(n3, Write(c, 0));
    m := Next(n3, Write(c, 0));
    LastWrite(n3, s, c);
  }

  lemma LastWrite(n: Node, s: Seg, c: Block)
    requires n.q.open && !n.q.stale && n.q.segs == [s, Fresh(s.id + 1, 0), Fresh(s.id + 2, 0)] && c != []
    requires 8 + |c| <= n.q.maxSegmentSize && Usage(n.q.segs) + |c| <= n.q.maxSize
    ensures var m := Next(n, Write(c, 0));
            && m.q.open && m.sender == n.sender
            && m.q.segs == [s, Fresh(s.id + 1, 0), AppendSeg(Fresh(s.id + 2, 0), c, 0)]
  {
    hide Usage;
  }

  lemma GapUnread(q: State, s: Seg, c: Block)
    requires q.segs == [s, Fresh(s.id + 1, 0), AppendSeg(Fresh(s.id + 2, 0), c, 0)]
    ensures UnreadAll(q.segs[1..]) == [c] && Contents(q) == Unread(s) + [c]
  {
    var t := AppendSeg(Fresh(s.id + 2, 0), c, 0);
    UnreadOne(t);
    assert q.segs[1..][1..] == [t];
  }

  lemma GapAhead(q: State, s: Seg, b: Block, c: Block)
    requires q.segs == [s, Fresh(s.id + 1, 0), AppendSeg(Fresh(s.id + 2, 0), c, 0)] && s.blocks == [b] && s.head == 0
    ensures AdvanceMeetsGap(q) && !Stalled(q) && Contents(q) == [b, c]
  {
    GapUnread(q, s, c);
  }

  lemma GapFinish(n: Node, b: Block, c: Block) returns (m: Node, n': Node)
    requires Accounted(n) && n.sender.Idle? && AdvanceMeetsGap(n.q) && !Stalled(n.q) && Contents(n.q) == [b, c]
    ensures n.q.open && n.q.segs != []
    ensures m == Next(n, Read) && Accounted(m) && m.q == n.q && m.sender.Holding?
    ensures n' == Next(m, Finish(true, 0)) && Stalled(n'.q) && Contents(n'.q) == [c]
  {
    OpenWithSegments(n);
    hide Next, Accounted, Stalled, Contents, AdvanceMeetsGap;
    ReadGets(n);
    ReadStep(n);
    m := Next(n, Read);
    n' := Next(m, Finish(true, 0));
    StallsIff(m, Finish(true, 0));
    FinishStep(m, true, 0);
  }

  lemma RunsFive(n: Node, a: Event, b: Event, c: Event, d: Event, e: Event)
    requires n.q.open && n.q.segs != [] && Enabled(n, a)
    requires var m := Next(n, a); m.q.open && m.q.segs != [] && Enabled(m, b)
    requires var m := Next(Next(n, a), b); m.q.open && m.q.segs != [] && Enabled(m, c)
    requires var m := Next(Next(Next(n, a), b), c); m.q.open && m.q.segs != [] && Enabled(m, d)
    requires var m := Next(Next(Next(Next(n, a), b), c), d); m.q.open && m.q.segs != [] && Enabled(m, e)
    ensures Runs(n, [a, b, c, d, e], Next(Next(Next(Next(Next(n, a), b), c), d), e))
  {
    hide Next, Enabled, Runs;
    RunsFour(Next(n, a), b, c, d, e);
    RunsCons(n, a, [b, c, d, e], Next(Next(Next(Next(Next(n, a), b), c), d), e));
    assert [a] + [b, c, d, e] == [a, b, c, d, e];
  }

  /**
   A stall without a stalling write: the last block of the head leaves, and the
   next segment was left by an oversized write.
   */
  lemma GapStallReachable(b: Block, big: Block, c: Block, maxSegmentSize: int, maxSize: int) returns (m: Node, n: Node)
    requires b != [] && c != [] && 8 + |b| <= maxSegmentSize && 8 + |c| <= maxSegmentSize < 8 + |big|
    requires maxSize >= 32 + |b| + |big|
    ensures Runs(Start(maxSegmentSize, maxSize, 0), [Write(b, 0), Write(big, 0), Write(big, 0), Write(c, 0), Read], m)
    ensures Accounted(m) && !Stalled(m.q) && m.sender.Holding?
    ensures n == Next(m, Finish(true, 0)) && Stalled(n.q) && Contents(n.q) == [c]
  {
    var n0 := Start(maxSegmentSize, maxSize, 0);
    var s := AppendSeg(Fresh(1, 0), b, 0);
    FirstWrite(b, maxSegmentSize, maxSize);
    AppendSegContents(Fresh(1, 0), b, 0);
    hide Next, Accounted, Stalled, Runs, Start, Contents;
    var n1 := Next(n0, Write(b, 0));
    var n4 := GapWrites(n1, s, big, c);
    GapAhead(n4.q, s, b, c);
    m, n := GapFinish(n4, b, c);
    RunsFive(n0, Write(b, 0), Write(big, 0), Write(big, 0), Write(c, 0), Read);
  }

  lemma RunsCons(n: Node, e: Event, es: seq<Event>, n': Node)
    requires n.q.open && n.q.segs != [] && Enabled(n, e) && Runs(Next(n, e), es, n')
    ensures Runs(n, [e] + es, n')
  {
    hide Next;
    assert ([e] + es)[1..] == es;
  }

  /**
   A stalled queue stays stalled: the sender is told EOF and never calls Advance,
   so that in every run of writes and sends no block leaves the queue again.
   Only a purge or a reopening can end the stall.
   */
  lemma {:induction false} StalledForever(n: Node, es: seq<Event>, n': Node)
    requires Accounted(n) && Runs(n, es, n') && Stalled(n.q) && n.sender.Idle?
    requires forall i :: 0 <= i < |es| ==> !es[i].Purge? && !es[i].Reopen?
    ensures Stalled(n'.q) && n'.sender.Idle? && n'.gone == n.gone
    decreases |es|
  {
    hide Append, Current, Bounded, CachesRight, Blocks, Ordered, UnreadAll, DistinctIds;
    if es == [] {
    } else {
      StepAccounts(n, es[0]);
      match es[0] {
        case Write(b, now) =>
          if n.q.stale {
            NothingUnread(n.q.segs);
          }
          WriteStallsIff(n.q, b, now);
        case Read =>
          CurrentRefines(n.q);
      }
      StalledForever(Next(n, es[0]), es[1..], n');
    }
  }

  // ---------------------------------------------------------------- draining

  /** No drained segment lies before data. */
  ghost predicate Clear(q: State) {
    forall i :: 0 <= i < |q.segs| && Drained(q.segs[i]) ==> UnreadAll(q.segs[i..]) == []
  }

  lemma ClearWithoutGaps(q: State)
    requires q.open && NoGap(q) && !Stalled(q)
    ensures Clear(q)
  {
    if q.segs != [] {
      assert q.segs[0..] == q.segs;
    }
  }

  lemma EmptyIsClear(q: State)
    requires Contents(q) == []
    ensures Clear(q)
  {
    forall i | 0 <= i < |q.segs|
      ensures UnreadAll(q.segs[i..]) == []
    {
      assert q.segs == q.segs[..i] + q.segs[i..];
      UnreadConcat(q.segs[..i], q.segs[i..]);
    }
  }

  lemma ClearIsNotStalled(q: State)
    requires Clear(q)
    ensures !Stalled(q)
  {
    if q.segs != [] {
      assert q.segs[0..] == q.segs;
    }
  }

  lemma RestClear(q: State)
    requires q.segs != [] && !Drained(q.segs[0])
    ensures Clear(q.(segs := q.segs[1..])) <==> Clear(q)
  {
    hide UnreadAll;
    var q' := q.(segs := q.segs[1..]);
    if Clear(q) {
      forall i | 0 <= i < |q'.segs| && Drained(q'.segs[i])
        ensures UnreadAll(q'.segs[i..]) == []
      {
        assert q.segs[1..][i..] == q.segs[i + 1..];
        assert Drained(q.segs[i + 1]);
      }
    }
    if Clear(q') {
      forall i | 0 <= i < |q.segs| && Drained(q.segs[i])
        ensures UnreadAll(q.segs[i..]) == []
      {
        assert q.segs[1..][i - 1..] == q.segs[i..];
        assert Drained(q'.segs[i - 1]);
      }
    }
  }

  lemma NewHeadClear(q: State, s: Seg)
    requires q.segs != [] && !Drained(q.segs[0])
    requires Drained(s) ==> |q.segs| == 1
    ensures Clear(q.(segs := [s] + q.segs[1..])) <==> Clear(q)
  {
    var q' := q.(segs := [s] + q.segs[1..]);
    assert q'.segs[1..] == q.segs[1..];
    RestClear(q);
    if |q.segs| == 1 && Drained(s) {
      NothingUnread([s]);
      assert q'.segs == [s] && [s][0..] == [s];
    } else {
      RestClear(q');
    }
  }

  /** Sending a block neither makes nor removes a drained segment before data. */
  lemma AdvanceClear(q: State, now: int)
    requires Shape(q) && !Drained(q.segs[0])
    ensures Clear(Advance(q, now).0) <==> Clear(q)
  {
    hide Clear, UnreadAll, DistinctIds;
    var s := AdvanceSeg(q.segs[0], now);
    assert ([s] + q.segs[1..])[1..] == q.segs[1..];
    if Drained(s) && |q.segs| > 1 {
      RestClear(q);
    } else {
      NewHeadClear(q, s);
    }
  }

  predicate BySender(e: Event) {
    e.Read? || e.Fail? || e.Finish?
  }

  lemma {:induction false} SenderKeepsClear(n: Node, es: seq<Event>, n': Node)
    requires Accounted(n) && Runs(n, es, n') && forall i :: 0 <= i < |es| ==> BySender(es[i])
    ensures Clear(n'.q) <==> Clear(n.q)
    decreases |es|
  {
    hide Clear, Contents, Advance, Current, Blocks, Bounded, CachesRight, DistinctIds;
    if es == [] {
    } else {
      StepAccounts(n, es[0]);
      match es[0] {
        case Read => CurrentRefines(n.q);
        case Fail =>
        case Finish(_, now) => AdvanceClear(n.q, now);
      }
      SenderKeepsClear(Next(n, es[0]), es[1..], n');
    }
  }

  function DeliveredAll(bs: seq<Block>): seq<Fate> {
    if bs == [] then [] else [Delivered(bs[0])] + DeliveredAll(bs[1..])
  }

  /** One read and one delivery for each of k blocks. */
  function Sends(k: nat, now: int): (es: seq<Event>)
    ensures forall i :: 0 <= i < |es| ==> BySender(es[i])
  {
    if k == 0 then [] else [Read, Finish(true, now)] + Sends(k - 1, now)
  }

  lemma ReadGets(n: Node)
    requires Accounted(n) && n.sender.Idle? && !Stalled(n.q) && Contents(n.q) != []
    ensures Next(n, Read) == n.(sender := Holding(Contents(n.q)[0]))
  {
    hide Current, Bounded, CachesRight, Blocks, Ordered, UnreadAll, DistinctIds;
    CurrentRefines(n.q);
  }

  lemma SendOne(n: Node, now: int) returns (n': Node)
    requires Accounted(n) && Clear(n.q) && n.sender.Idle? && Contents(n.q) != []
    ensures n' == Next(Next(n, Read), Finish(true, now))
    ensures Accounted(n') && Clear(n'.q) && n'.sender.Idle?
    ensures Contents(n'.q) == Contents(n.q)[1..] && n'.gone == n.gone + [Delivered(Contents(n.q)[0])]
  {
    hide Current, Advance, Bounded, CachesRight, Blocks, Ordered, UnreadAll, DistinctIds, Clear;
    ClearIsNotStalled(n.q);
    ReadGets(n);
    ReadStep(n);
    var m := Next(n, Read);
    FinishStep(m, true, now);
    AdvanceClear(m.q, now);
    n' := Next(m, Finish(true, now));
  }

  /**
   When no drained segment lies before data, successful sends alone empty the
   queue, and every block arrives in order.
   */
  lemma {:induction false} Drains(n: Node, now: int) returns (n': Node)
    requires Accounted(n) && Clear(n.q) && n.sender.Idle?
    ensures Runs(n, Sends(|Contents(n.q)|, now), n')
    ensures Contents(n'.q) == [] && n'.gone == n.gone + DeliveredAll(Contents(n.q))
    decreases |Contents(n.q)|
  {
    hide Clear, Stalled, Contents, Accounted, Next;
    var c := Contents(n.q);
    assert n.q.open && n.q.segs != [] by { OpenWithSegments(n); }
    if c == [] {
      n' := n;
    } else {
      var m := SendOne(n, now);
      ClearIsNotStalled(n.q);
      ReadGets(n);
      n' := Drains(m, now);
      RunsTwo(n, Read, Finish(true, now), Sends(|c| - 1, now), n');
      assert n'.gone == n.gone + ([Delivered(c[0])] + DeliveredAll(c[1..]));
    }
  }

  /**
   The sender alone can empty a queue, with whatever outcomes of its sends, if
   and only if no drained segment lies before data.
   */
  lemma DrainsIff(n: Node)
    requires Accounted(n) && n.sender.Idle?
    ensures (exists es, n' ::
               (forall i :: 0 <= i < |es| ==> BySender(es[i])) && Runs(n, es, n') && Contents(n'.q) == [])
            <==> Clear(n.q)
  {
    hide Clear, Contents, Accounted, Runs;
    if Clear(n.q) {
      var n' := Drains(n, 0);
    }
    forall es, n' | (forall i :: 0 <= i < |es| ==> BySender(es[i])) && Runs(n, es, n') && Contents(n'.q) == []
      ensures Clear(n.q)
    {
      EmptyIsClear(n'.q);
      SenderKeepsClear(n, es, n');
    }
  }

  /** In every careful run, successful sends empty a queue unless it is stalled. */
  lemma DrainsInRuns(maxSegmentSize: int, maxSize: int, now: int, es: seq<Event>, n: Node) returns (n': Node)
    requires maxSegmentSize >= 0 && maxSize >= 0
    requires Runs(Start(maxSegmentSize, maxSize, now), es, n) && CarefulRun(Start(maxSegmentSize, maxSize, now), es)
    requires !Stalled(n.q) && n.sender.Idle?
    ensures Runs(n, Sends(|Contents(n.q)|, now), n')
    ensures Contents(n'.q) == [] && n'.gone == n.gone + DeliveredAll(Contents(n.q))
  {
    NoGapInRuns(maxSegmentSize, maxSize, now, es, n);
    OpenWithSegments(n);
    ClearWithoutGaps(n.q);
    n' := Drains(n, now);
  }

  lemma OpenWithSegments(n: Node)
    requires Accounted(n)
    ensures n.q.open && n.q.segs != []
  {
  }
}
