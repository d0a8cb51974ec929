/**
 What the queue operations keep, and what they do to the abstract queue of
 unread blocks.
 */
module QueueProofs {
  import opened SegmentFormat
  import opened QueueModel

  // ---------------------------------------------------------------- invariants

  ghost predicate DistinctIds(segs: seq<Seg>) {
    forall i, j :: 0 <= i < j < |segs| ==> segs[i].id != segs[j].id
  }

  /** An open queue with at least one segment; a stale tail only ever goes with one empty segment. */
  ghost predicate Shape(q: State) {
    && q.open
    && q.segs != []
    && (forall i :: 0 <= i < |q.segs| ==> q.segs[i].id >= 1 && q.segs[i].head <= |q.segs[i].blocks|)
    && DistinctIds(q.segs)
    && (q.stale ==> |q.segs| == 1 && q.segs[0].blocks == [])
  }

  ghost predicate SegBounded(s: Seg, maxSegmentSize: int) {
    && Size(s) <= maxSegmentSize + 8
    && (forall j :: 0 <= j < |s.blocks| ==> 0 < |s.blocks[j]| <= maxSegmentSize - 8)
  }

  /** The disk bounds: a segment exceeds its maximum by at most 8 bytes, the queue by at most 16. */
  ghost predicate Bounded(q: State) {
    && q.maxSegmentSize >= 0 && q.maxSize >= 0
    && SegsBounded(q)
    && Usage(q.segs) <= q.maxSize + 16
  }

  ghost predicate CacheRight(s: Seg) {
    s.cached == HeadSize(s.blocks, s.head)
  }

  /** Every segment caches the length of its head block, or 0 when it is drained. */
  ghost predicate CachesRight(q: State) {
    forall i :: 0 <= i < |q.segs| ==> CacheRight(q.segs[i])
  }

  ghost predicate Inv(q: State) {
    Shape(q) && Bounded(q) && CachesRight(q)
  }

  /** Only the head segment can be drained. */
  ghost predicate NoGap(q: State) {
    forall i :: 1 <= i < |q.segs| ==> !Drained(q.segs[i])
  }

  /** The live segment ids are consecutive and ascending. */
  ghost predicate Ordered(q: State) {
    && q.segs != []
    && forall i :: 0 <= i < |q.segs| ==> q.segs[i].id == q.segs[0].id + i
  }

  /** Data is waiting, but the reader is told that there is none. */
  predicate Stalled(q: State) {
    q.open && q.segs != [] && Drained(q.segs[0]) && Contents(q) != []
  }

  // ---------------------------------------------------------------- sequences of segments

  lemma {:induction false} UnreadConcat(a: seq<Seg>, b: seq<Seg>)
    ensures UnreadAll(a + b) == UnreadAll(a) + UnreadAll(b)
  {
    if a == [] {
      assert a + b == b;
    } else {
      assert (a + b)[1..] == a[1..] + b;
      UnreadConcat(a[1..], b);
    }
  }

  lemma UnreadOne(s: Seg)
    ensures UnreadAll([s]) == Unread(s)
  {
    assert UnreadAll([s]) == Unread(s) + UnreadAll([]);
  }

  lemma {:induction false} UsageConcat(a: seq<Seg>, b: seq<Seg>)
    ensures Usage(a + b) == Usage(a) + Usage(b)
  {
    if a == [] {
      assert a + b == b;
    } else {
      assert (a + b)[1..] == a[1..] + b;
      UsageConcat(a[1..], b);
    }
  }

  lemma UsageOne(s: Seg)
    ensures Usage([s]) == Size(s)
  {
    assert Usage([s]) == Size(s) + Usage([]);
  }

  lemma {:induction false} UsageSplit(segs: seq<Seg>, n: nat)
    requires n <= |segs|
    ensures Usage(segs) == Usage(segs[..n]) + Usage(segs[n..])
  {
    assert segs == segs[..n] + segs[n..];
    UsageConcat(segs[..n], segs[n..]);
  }

  lemma {:induction false} MaxIdIsMax(segs: seq<Seg>, i: nat)
    requires i < |segs|
    ensures segs[i].id <= MaxId(segs)
  {
    if i == 0 {
    } else {
      MaxIdIsMax(segs[1..], i - 1);
    }
  }

  lemma {:induction false} MaxIdAttained(segs: seq<Seg>) returns (i: nat)
    requires segs != []
    ensures i < |segs| && segs[i].id == MaxId(segs)
  {
    if |segs| == 1 || segs[0].id > MaxId(segs[1..]) {
      i := 0;
    } else {
      i := MaxIdAttained(segs[1..]);
      i := i + 1;
    }
  }

  /** In an ordered queue the largest id is that of the last segment. */
  lemma MaxIdOrdered(q: State)
    requires Ordered(q)
    ensures MaxId(q.segs) == q.segs[|q.segs| - 1].id
  {
    MaxIdIsMax(q.segs, |q.segs| - 1);
    var i := MaxIdAttained(q.segs);
  }

  lemma {:induction false} IdIn(segs: seq<Seg>, i: nat)
    requires i < |segs|
    ensures segs[i].id in Ids(segs)
  {
    if i == 0 {
    } else {
      IdIn(segs[1..], i - 1);
    }
  }

  lemma {:induction false} IdFrom(segs: seq<Seg>, id: nat) returns (i: nat)
    requires id in Ids(segs)
    ensures i < |segs| && segs[i].id == id
  {
    if segs[0].id == id {
      i := 0;
    } else {
      i := IdFrom(segs[1..], id);
      i := i + 1;
    }
  }

  lemma IdsRest(segs: seq<Seg>)
    requires segs != [] && DistinctIds(segs)
    ensures Ids(segs[1..]) == Ids(segs) - {segs[0].id}
    ensures DistinctIds(segs[1..])
  {
    if segs[0].id in Ids(segs[1..]) {
      var i := IdFrom(segs[1..], segs[0].id);
    }
  }

  lemma MaxIdOfIds(segs: seq<Seg>, max: nat)
    requires max == 0 || max in Ids(segs)
    requires forall id :: id in Ids(segs) ==> id <= max
    ensures max == MaxId(segs)
  {
    if max in Ids(segs) {
      var i := IdFrom(segs, max);
      MaxIdIsMax(segs, i);
    }
    if segs != [] {
      var i := MaxIdAttained(segs);
      IdIn(segs, i);
    }
  }

  lemma MaxIdFresh(segs: seq<Seg>)
    ensures MaxId(segs) + 1 !in Ids(segs)
  {
    if MaxId(segs) + 1 in Ids(segs) {
      var i := IdFrom(segs, MaxId(segs) + 1);
      MaxIdIsMax(segs, i);
    }
  }

  /** Changing segments without renumbering them keeps the set of ids. */
  lemma {:induction false} SameIds(a: seq<Seg>, b: seq<Seg>)
    requires |a| == |b| && forall i :: 0 <= i < |a| ==> a[i].id == b[i].id
    ensures Ids(a) == Ids(b)
    ensures DistinctIds(a) ==> DistinctIds(b)
  {
    if a == [] {
    } else {
      SameIds(a[1..], b[1..]);
    }
  }

  lemma {:induction false} IdsSnoc(segs: seq<Seg>, s: Seg)
    ensures Ids(segs + [s]) == Ids(segs) + {s.id}
  {
    if segs == [] {
      assert segs + [s] == [s];
      assert Ids([s]) == {s.id} + Ids([]);
    } else {
      assert (segs + [s])[1..] == segs[1..] + [s];
      IdsSnoc(segs[1..], s);
    }
  }

  lemma {:induction false} NothingUnread(segs: seq<Seg>)
    requires forall i :: 0 <= i < |segs| ==> Drained(segs[i])
    ensures UnreadAll(segs) == []
  {
    if segs == [] {
    } else {
      NothingUnread(segs[1..]);
    }
  }

  // ---------------------------------------------------------------- appending

  /** The segment an accepted block goes to: the tail, or a fresh segment behind it. */
  function Target(q: State, b: Block, now: int): State
    requires q.segs != []
  {
    if SegmentFull(q, q.segs[|q.segs| - 1], b) then AddSegment(q, now) else q
  }

  predicate Stores(q: State, b: Block) {
    && q.open
    && Usage(q.segs) + |b| <= q.maxSize
    && !q.stale
    && 8 + |b| <= q.maxSegmentSize
  }

  lemma AddSegmentIds(q: State, now: int)
    requires DistinctIds(q.segs)
    ensures var id := MaxId(q.segs) + 1;
            && id !in Ids(q.segs)
            && Ids(AddSegment(q, now).segs) == Ids(q.segs) + {id}
            && DistinctIds(AddSegment(q, now).segs)
  {
    MaxIdFresh(q.segs);
    IdsSnoc(q.segs, Fresh(MaxId(q.segs) + 1, now));
    forall i | 0 <= i < |q.segs|
      ensures q.segs[i].id != MaxId(q.segs) + 1
    {
      IdIn(q.segs, i);
    }
  }

  lemma AddSegmentTotals(q: State, now: int)
    ensures Contents(AddSegment(q, now)) == Contents(q)
    ensures Usage(AddSegment(q, now).segs) == Usage(q.segs) + 8
  {
    var s := Fresh(MaxId(q.segs) + 1, now);
    UnreadConcat(q.segs, [s]);
    UnreadOne(s);
    assert UnreadAll(q.segs) + [] == UnreadAll(q.segs);
    UsageConcat(q.segs, [s]);
    UsageOne(s);
  }

  lemma AddSegmentKeeps(q: State, now: int)
    requires Shape(q) && !q.stale
    ensures Shape(AddSegment(q, now))
    ensures CachesRight(q) ==> CachesRight(AddSegment(q, now))
    ensures Ordered(q) ==> Ordered(AddSegment(q, now))
  {
    hide Ids, DistinctIds, MaxId;
    AddSegmentIds(q, now);
    if Ordered(q) {
      MaxIdOrdered(q);
    }
  }

  lemma LastReplaced(segs: seq<Seg>, s: Seg)
    requires segs != []
    ensures UnreadAll(segs[..|segs| - 1] + [s]) == UnreadAll(segs[..|segs| - 1]) + Unread(s)
    ensures Usage(segs[..|segs| - 1] + [s]) == Usage(segs[..|segs| - 1]) + Size(s)
  {
    UnreadConcat(segs[..|segs| - 1], [s]);
    UnreadOne(s);
    UsageConcat(segs[..|segs| - 1], [s]);
    UsageOne(s);
  }

  lemma AppendSegContents(s: Seg, b: Block, now: int)
    requires s.head <= |s.blocks|
    ensures Unread(AppendSeg(s, b, now)) == Unread(s) + [b]
    ensures Size(AppendSeg(s, b, now)) == Size(s) + 8 + |b|
  {
    EncodeSnoc(s.blocks, b);
  }

  lemma AppendTailContents(q: State, b: Block, now: int)
    requires Shape(q)
    ensures Contents(AppendTail(q, b, now)) == Contents(q) + [b]
    ensures Usage(AppendTail(q, b, now).segs) == Usage(q.segs) + 8 + |b|
  {
    var last := |q.segs| - 1;
    var s := q.segs[last];
    assert q.segs == q.segs[..last] + [s];
    LastReplaced(q.segs, s);
    LastReplaced(q.segs, AppendSeg(s, b, now));
    AppendSegContents(s, b, now);
  }

  lemma AppendTailKeeps(q: State, b: Block, now: int)
    requires Shape(q) && !q.stale
    ensures Shape(AppendTail(q, b, now)) && !AppendTail(q, b, now).stale
    ensures Ordered(q) ==> Ordered(AppendTail(q, b, now))
  {
  }

  /**
   Append ends in one of three ways, decided by the disk usage and by whether the
   block fits a fresh segment.  It adds the block at the end of the abstract
   queue exactly when Stores holds and leaves the abstract queue alone otherwise.
   In particular it answers Ok without storing when the tail is stale.
   */
  lemma AppendRefines(q: State, b: Block, now: int)
    requires Shape(q)
    ensures var (q', status) := Append(q, b, now);
            && Shape(q')
            && (Ordered(q) ==> Ordered(q'))
            && status == (if Usage(q.segs) + |b| > q.maxSize then ErrQueueFull
                          else if !q.stale && 8 + |b| > q.maxSegmentSize then ErrSegmentFull
                          else Ok)
            && Contents(q') == (if Stores(q, b) then Contents(q) + [b] else Contents(q))
            && q'.stale == q.stale
            && (Stores(q, b) <==> status == Ok && !q.stale)
  {
    hide Usage, UnreadAll, Ordered, MaxId, AppendTail, DistinctIds;
    if q.open && Usage(q.segs) + |b| <= q.maxSize && !q.stale {
      if SegmentFull(q, q.segs[|q.segs| - 1], b) {
        var q1 := AddSegment(q, now);
        AddSegmentTotals(q, now);
        AddSegmentKeeps(q, now);
        assert q1.segs[|q1.segs| - 1] == Fresh(MaxId(q.segs) + 1, now);
        if !SegmentFull(q1, q1.segs[|q1.segs| - 1], b) {
          AppendTailContents(q1, b, now);
          AppendTailKeeps(q1, b, now);
        }
      } else {
        AppendTailContents(q, b, now);
        AppendTailKeeps(q, b, now);
      }
    }
  }

  /**
   A block takes 8 bytes more than its length, and 8 more again when it opens a
   segment, which it does exactly when there is space and a live tail without
   room for it.
   */
  lemma AppendUsage(q: State, b: Block, now: int)
    requires Shape(q)
    ensures var opens := |Append(q, b, now).0.segs| - |q.segs|;
            && 0 <= opens <= 1
            && (opens == 1 <==>
                  && Usage(q.segs) + |b| <= q.maxSize && !q.stale
                  && Len(q.segs[|q.segs| - 1].blocks) + 8 + |b| > q.maxSegmentSize)
            && Usage(Append(q, b, now).0.segs)
               == Usage(q.segs) + 8 * opens + (if Stores(q, b) then 8 + |b| else 0)
            && (opens == 1 || Stores(q, b) ==> Usage(q.segs) + |b| <= q.maxSize)
  {
    hide UnreadAll, MaxId, DistinctIds;
    if q.open && Usage(q.segs) + |b| <= q.maxSize && !q.stale {
      if SegmentFull(q, q.segs[|q.segs| - 1], b) {
        AddSegmentTotals(q, now);
        AddSegmentKeeps(q, now);
        AppendTailContents(AddSegment(q, now), b, now);
      } else {
        AppendTailContents(q, b, now);
      }
    }
  }

  ghost predicate SegsBounded(q: State) {
    forall i :: 0 <= i < |q.segs| ==> SegBounded(q.segs[i], q.maxSegmentSize)
  }

  lemma AppendSegBounded(s: Seg, b: Block, now: int, max: int)
    requires SegBounded(s, max) && b != [] && Size(s) + |b| <= max
    ensures SegBounded(AppendSeg(s, b, now), max)
  {
    EncodeSnoc(s.blocks, b);
  }

  lemma AppendTailBounded(q: State, b: Block, now: int)
    requires q.segs != [] && b != [] && SegsBounded(q)
    requires !SegmentFull(q, q.segs[|q.segs| - 1], b)
    ensures SegsBounded(AppendTail(q, b, now))
  {
    hide SegBounded;
    AppendSegBounded(q.segs[|q.segs| - 1], b, now, q.maxSegmentSize);
  }

  lemma AddSegmentBounded(q: State, now: int)
    requires SegsBounded(q) && q.maxSegmentSize >= 0
    ensures SegsBounded(AddSegment(q, now))
  {
    hide SegBounded;
    FreshBounded(MaxId(q.segs) + 1, now, q.maxSegmentSize);
  }

  lemma FreshBounded(id: nat, now: int, max: int)
    requires max >= 0
    ensures SegBounded(Fresh(id, now), max)
  {
  }

  lemma AppendBounded(q: State, b: Block, now: int)
    requires Shape(q) && Bounded(q) && b != []
    ensures Bounded(Append(q, b, now).0)
  {
    hide SegsBounded, Usage, MaxId, Shape;
    assert SegsBounded(q) && q.segs != [] by { BoundedParts(q); }
    AppendUsage(q, b, now);
    if q.open && Usage(q.segs) + |b| <= q.maxSize && !q.stale {
      if SegmentFull(q, q.segs[|q.segs| - 1], b) {
        var q1 := AddSegment(q, now);
        AddSegmentBounded(q, now);
        if !SegmentFull(q1, q1.segs[|q1.segs| - 1], b) {
          AppendTailBounded(q1, b, now);
        }
      } else {
        AppendTailBounded(q, b, now);
      }
    }
    assert SegsBounded(Append(q, b, now).0);
  }

  lemma BoundedParts(q: State)
    requires Shape(q) && Bounded(q)
    ensures q.segs != [] && SegsBounded(q)
  {
  }

  /** The tail holds an unread empty block at its head, and the new block is not empty and goes behind it. */
  predicate BehindEmptyHead(q: State, b: Block)
    requires q.segs != []
  {
    var s := q.segs[|q.segs| - 1];
    && Stores(q, b) && !SegmentFull(q, s, b)
    && s.head < |s.blocks| && s.blocks[s.head] == []
    && b != []
  }

  lemma AppendTailCaches(q: State, b: Block, now: int)
    requires Shape(q) && CachesRight(q)
    ensures var s := q.segs[|q.segs| - 1];
            CachesRight(AppendTail(q, b, now))
            <==> !(s.head < |s.blocks| && s.blocks[s.head] == [] && b != [])
  {
    var last := |q.segs| - 1;
    var q' := AppendTail(q, b, now);
    assert forall i :: 0 <= i < last ==> q'.segs[i] == q.segs[i];
    assert q'.segs[last] == AppendSeg(q.segs[last], b, now);
    assert CachesRight(q') <==> CacheRight(q'.segs[last]);
  }

  /**
   The length cached for the head block survives an Append exactly when the new
   block is not put behind an unread empty block: the code takes a cached 0 to
   mean that nothing is left to read.
   */
  lemma AppendCachesIff(q: State, b: Block, now: int)
    requires Shape(q) && CachesRight(q)
    ensures CachesRight(Append(q, b, now).0) <==> !BehindEmptyHead(q, b)
  {
    if q.open && Usage(q.segs) + |b| <= q.maxSize && !q.stale {
      if SegmentFull(q, q.segs[|q.segs| - 1], b) {
        AddSegmentKeeps(q, now);
        AppendTailCaches(AddSegment(q, now), b, now);
      } else {
        AppendTailCaches(q, b, now);
      }
    }
  }

  /** For example: after an empty block, the next append caches its own length although the head block has length 0. */
  lemma EmptyBlockMisleads(now: int)
    ensures var q := Append(State(true, [Fresh(1, now)], false, 100, 1000), [], now).0;
            && q.segs == [Seg(1, [[]], 0, 0, now)]
            && Shape(q) && CachesRight(q) && !CachesRight(Append(q, [7], now).0)
  {
    var s := Seg(1, [[]], 0, 0, now);
    var q := State(true, [s], false, 100, 1000);
    UsageOne(Fresh(1, now));
    assert [] + [[]] == s.blocks;
    assert Append(State(true, [Fresh(1, now)], false, 100, 1000), [], now).0 == q;
    UsageOne(s);
    EncodeSnoc([], []);
    AppendCachesIff(q, [7], now);
  }

  lemma AppendKeepsInv(q: State, b: Block, now: int)
    requires Inv(q) && b != []
    ensures Inv(Append(q, b, now).0)
  {
    AppendRefines(q, b, now);
    AppendBounded(q, b, now);
    AppendCachesIff(q, b, now);
  }

  /** The block passes the test for space and reaches a live tail, but is too large for any segment. */
  predicate Oversized(q: State, b: Block) {
    q.open && Usage(q.segs) + |b| <= q.maxSize && !q.stale && 8 + |b| > q.maxSegmentSize
  }

  /** A block too large for any segment is refused, but leaves an empty segment behind; nothing else does. */
  lemma AppendGapIff(q: State, b: Block, now: int)
    requires Shape(q) && NoGap(q)
    ensures NoGap(Append(q, b, now).0) <==> !Oversized(q, b)
  {
    hide Usage, MaxId, DistinctIds, UnreadAll, Ordered;
    AppendRefines(q, b, now);
    if q.open && Usage(q.segs) + |b| <= q.maxSize && !q.stale {
      var q1 := Target(q, b, now);
      var last := |q1.segs| - 1;
      var q' := Append(q, b, now).0;
      assert |q'.segs| == |q1.segs|;
      assert forall i :: 0 <= i < last ==> q'.segs[i] == q1.segs[i];
      if Append(q, b, now).1 == ErrSegmentFull {
        assert Drained(q'.segs[last]) && last >= 1;
      } else {
        assert !Drained(q'.segs[last]);
      }
    }
  }

  /** For example: a block of 30 bytes does not fit a segment of 20 and leaves a second empty segment. */
  lemma OversizedLeavesGap(b: Block, now: int)
    requires |b| == 30
    ensures var q := State(true, [Fresh(1, now)], false, 20, 1000);
            Shape(q) && NoGap(q) && Append(q, b, now) == (q.(segs := [Fresh(1, now), Fresh(2, now)]), ErrSegmentFull)
            && !NoGap(Append(q, b, now).0)
  {
    var q := State(true, [Fresh(1, now)], false, 20, 1000);
    UsageOne(Fresh(1, now));
    AppendGapIff(q, b, now);
    MaxIdOrdered(q);
    assert q.segs + [Fresh(2, now)] == [Fresh(1, now), Fresh(2, now)];
  }

  // ---------------------------------------------------------------- reading

  lemma HeadSplit(q: State)
    requires q.segs != []
    ensures Contents(q) == Unread(q.segs[0]) + UnreadAll(q.segs[1..])
  {
  }

  /** The reader sees the first block of the abstract queue, or EOF exactly when the head segment is drained. */
  lemma CurrentRefines(q: State)
    requires Inv(q)
    ensures var (q', status, b) := Current(q);
            && q' == q
            && (status == EOF <==> Drained(q.segs[0]))
            && (status == Ok <==> !Drained(q.segs[0]))
            && (status == Ok ==> Contents(q) != [] && b == Contents(q)[0])
            && (status == EOF && !Stalled(q) <==> Contents(q) == [])
  {
    var s := q.segs[0];
    if !Drained(s) {
      assert SegBounded(s, q.maxSegmentSize) && CacheRight(s);
      assert Refreshed(s) == s && [s] + q.segs[1..] == q.segs;
      assert Unread(s)[0] == s.blocks[s.head];
    }
  }

  lemma AdvanceSegContents(s: Seg, now: int)
    requires s.head <= |s.blocks|
    ensures Unread(AdvanceSeg(s, now)) == if Drained(s) then [] else Unread(s)[1..]
    ensures Size(AdvanceSeg(s, now)) == Size(s)
  {
  }

  lemma TrimKeeps(q: State)
    requires Inv(q) && !q.stale
    ensures Inv(TrimHead(q))
    ensures NoGap(q) ==> NoGap(TrimHead(q))
    ensures Ordered(q) ==> Ordered(TrimHead(q))
    ensures Drained(q.segs[0]) ==> Contents(TrimHead(q)) == Contents(q)
  {
  }

  /** The state between the head's own advance and the trimming of the head. */
  function Stepped(q: State, now: int): State
    requires q.segs != []
  {
    q.(segs := [AdvanceSeg(q.segs[0], now)] + q.segs[1..])
  }

  lemma Cons(s: Seg, rest: seq<Seg>)
    ensures UnreadAll([s] + rest) == Unread(s) + UnreadAll(rest)
    ensures Usage([s] + rest) == Size(s) + Usage(rest)
  {
    assert ([s] + rest)[1..] == rest;
  }

  lemma SteppedShape(q: State, now: int)
    requires Shape(q)
    ensures Shape(Stepped(q, now))
    ensures NoGap(q) ==> NoGap(Stepped(q, now))
    ensures Ordered(q) ==> Ordered(Stepped(q, now))
    ensures CachesRight(q) ==> CachesRight(Stepped(q, now))
  {
    var q' := Stepped(q, now);
    assert q'.segs[0] == AdvanceSeg(q.segs[0], now);
    assert forall i :: 1 <= i < |q.segs| ==> q'.segs[i] == q.segs[i];
  }

  lemma SteppedBounded(q: State, now: int)
    requires Shape(q) && Bounded(q)
    ensures Bounded(Stepped(q, now))
  {
    var q' := Stepped(q, now);
    AdvanceSegContents(q.segs[0], now);
    Cons(q'.segs[0], q.segs[1..]);
    assert SegBounded(q.segs[0], q.maxSegmentSize) && q'.segs[0].blocks == q.segs[0].blocks;
    assert forall i :: 1 <= i < |q.segs| ==> q'.segs[i] == q.segs[i];
  }

  lemma TailOfConcat(a: seq<Block>, b: seq<Block>)
    requires a != []
    ensures (a + b)[1..] == a[1..] + b
  {
  }

  lemma SteppedContents(q: State, now: int)
    requires Shape(q)
    ensures Contents(Stepped(q, now)) == if Drained(q.segs[0]) then Contents(q) else Contents(q)[1..]
  {
    var s, rest := q.segs[0], UnreadAll(q.segs[1..]);
    HeadSplit(q);
    hide UnreadAll, AdvanceSeg, DistinctIds;
    AdvanceSegContents(s, now);
    Cons(AdvanceSeg(s, now), q.segs[1..]);
    if !Drained(s) {
      TailOfConcat(Unread(s), rest);
    }
  }

  /** The next Advance leaves the head segment, and the one behind it has nothing to read although data is waiting. */
  predicate AdvanceMeetsGap(q: State) {
    && |q.segs| > 1
    && q.segs[0].head + 1 >= |q.segs[0].blocks|
    && Drained(q.segs[1])
    && UnreadAll(q.segs[1..]) != []
  }

  lemma AdvanceStallsIff(q: State, now: int)
    requires Shape(q)
    ensures Stalled(Advance(q, now).0) <==> AdvanceMeetsGap(q)
  {
    hide DistinctIds, UnreadAll, Usage;
    var q1 := Stepped(q, now);
    assert q1.segs[1..] == q.segs[1..];
    assert Drained(q1.segs[0]) <==> q.segs[0].head + 1 >= |q.segs[0].blocks|;
    if Drained(q1.segs[0]) && |q1.segs| == 1 {
      NothingUnread(q1.segs);
    }
  }

  /**
   Advance removes exactly the first block of the abstract queue, or nothing when
   the head segment is already drained.  The queue is stalled afterwards exactly
   when the segment that becomes the head is drained and data is left; when only
   the head can be drained, one Advance is enough to end a stall.
   */
  lemma AdvanceRefines(q: State, now: int)
    requires Inv(q)
    ensures var (q', status) := Advance(q, now);
            && Inv(q') && status == Ok
            && (Stalled(q') <==> AdvanceMeetsGap(q))
            && (NoGap(q) ==> NoGap(q') && !Stalled(q'))
            && (Ordered(q) ==> Ordered(q'))
            && Contents(q') == (if Drained(q.segs[0]) then Contents(q) else Contents(q)[1..])
            && q'.stale == q.stale
            && (Stalled(q) ==> |q'.segs| == |q.segs| - 1)
  {
    AdvanceStallsIff(q, now);
    SteppedShape(q, now);
    SteppedBounded(q, now);
    SteppedContents(q, now);
    hide UnreadAll, Usage, DistinctIds;
    var q1 := Stepped(q, now);
    if Drained(q1.segs[0]) && |q1.segs| > 1 {
      TrimKeeps(q1);
    }
    if Stalled(q) && |q.segs| == 1 {
      NothingUnread(q.segs);
    }
  }
}
