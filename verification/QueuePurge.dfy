/** PurgeOlderThan: what it drops, when its loop ends, and what it does to the tail. */
module QueuePurge {
  import opened SegmentFormat
  import opened QueueModel
  import opened QueueProofs

  ghost predicate AllOld(segs: seq<Seg>, cutoff: int) {
    forall i :: 0 <= i < |segs| ==> Old(segs[i], cutoff)
  }

  lemma {:induction false} OldPrefixMeaning(segs: seq<Seg>, cutoff: int)
    ensures var n := OldPrefix(segs, cutoff);
            && AllOld(segs[..n], cutoff)
            && (n < |segs| ==> !Old(segs[n], cutoff))
            && (n == |segs| <==> AllOld(segs, cutoff))
            && (forall i :: 0 <= i < n ==> segs[i].modified < cutoff)
            && (n < |segs| ==> segs[n].modified >= cutoff)
  {
    if segs != [] && Old(segs[0], cutoff) {
      OldPrefixMeaning(segs[1..], cutoff);
      var m := OldPrefix(segs[1..], cutoff);
      assert segs[..m + 1] == [segs[0]] + segs[1..][..m];
    } else if segs != [] {
      assert !AllOld(segs, cutoff);
    }
  }

  lemma SuffixKeeps(q: State, n: nat)
    requires Inv(q) && n < |q.segs|
    ensures Inv(q.(segs := q.segs[n..]))
    ensures NoGap(q) ==> NoGap(q.(segs := q.segs[n..]))
    ensures Ordered(q) ==> Ordered(q.(segs := q.segs[n..]))
  {
    UsageSplit(q.segs, n);
    var q' := q.(segs := q.segs[n..]);
    assert forall i :: 0 <= i < |q'.segs| ==> q'.segs[i] == q.segs[n + i];
  }

  lemma OnlyFreshKeeps(q: State, now: int, spins: nat)
    requires Inv(q)
    ensures var q' := q.(segs := [Fresh(q.segs[|q.segs| - 1].id + 1 + spins, now)], stale := true);
            Inv(q') && NoGap(q') && Ordered(q') && Contents(q') == []
  {
    var s := Fresh(q.segs[|q.segs| - 1].id + 1 + spins, now);
    UnreadOne(s);
    UsageOne(s);
    FreshBounded(s.id, now, q.maxSegmentSize);
    UsagePositive(q.segs);
    hide SegBounded, UnreadAll, Usage;
  }

  lemma UsagePositive(segs: seq<Seg>)
    requires segs != []
    ensures Usage(segs) >= 8
  {
  }

  lemma PurgeKeepsInv(q: State, cutoff: int, now: int, spins: nat)
    requires Inv(q)
    ensures Inv(Purge(q, cutoff, now, spins))
    ensures NoGap(q) ==> NoGap(Purge(q, cutoff, now, spins))
    ensures Ordered(q) ==> Ordered(Purge(q, cutoff, now, spins))
  {
    var n := OldPrefix(q.segs, cutoff);
    if n < |q.segs| {
      SuffixKeeps(q, n);
    } else {
      OnlyFreshKeeps(q, now, spins);
    }
  }

  /**
   A purge drops the longest prefix of segments last modified before the cutoff,
   and with them a prefix of the unread blocks.  When that is every segment, one
   fresh empty segment remains, and from then on the tail is stale.
   */
  lemma PurgeRefines(q: State, cutoff: int, now: int, spins: nat, n: nat)
    requires Shape(q) && n == OldPrefix(q.segs, cutoff)
    ensures Contents(q) == UnreadAll(q.segs[..n]) + Contents(Purge(q, cutoff, now, spins))
    ensures forall i :: 0 <= i < n ==> q.segs[i].modified < cutoff
    ensures n < |q.segs| ==> q.segs[n].modified >= cutoff
    ensures n < |q.segs| ==> Purge(q, cutoff, now, spins) == q.(segs := q.segs[n..])
    ensures n == |q.segs| ==>
              Purge(q, cutoff, now, spins) == q.(segs := [Fresh(q.segs[n - 1].id + 1 + spins, now)], stale := true)
    ensures Purge(q, cutoff, now, spins).stale <==>
            q.stale || forall i :: 0 <= i < |q.segs| ==> q.segs[i].modified < cutoff
    ensures Purge(q, cutoff, now, spins).stale ==> Contents(Purge(q, cutoff, now, spins)) == []
  {
    hide UnreadAll, DistinctIds, MaxId, AllOld, Old, OldPrefix;
    OldPrefixMeaning(q.segs, cutoff);
    if n < |q.segs| {
      assert q.segs == q.segs[..n] + q.segs[n..];
      UnreadConcat(q.segs[..n], q.segs[n..]);
      if q.stale {
        NothingUnread(q.segs[n..]);
      }
    } else {
      UnreadOne(Fresh(q.segs[n - 1].id + 1 + spins, now));
      assert q.segs[..n] == q.segs;
    }
  }

  /** A block that was stored at or after the cutoff is still the last of the queue after a purge. */
  lemma RecentWriteStays(q: State, b: Block, at: int, cutoff: int, now: int, spins: nat)
    requires Shape(q) && !q.stale && Append(q, b, at).1 == Ok && at >= cutoff
    ensures var q' := Purge(Append(q, b, at).0, cutoff, now, spins);
            !q'.stale && Contents(q') != [] && Contents(q')[|Contents(q')| - 1] == b
  {
    hide Append, Purge, Unread, UnreadAll, Stores, DistinctIds, Usage, Ordered;
    AppendModifiesTail(q, b, at);
    AppendRefines(q, b, at);
    RecentTailStays(Append(q, b, at).0, cutoff, now, spins);
  }

  lemma RecentTailStays(q: State, cutoff: int, now: int, spins: nat)
    requires Shape(q) && !q.stale
    requires var s := q.segs[|q.segs| - 1]; s.modified >= cutoff && Unread(s) != []
    ensures var q', v := Purge(q, cutoff, now, spins), Unread(q.segs[|q.segs| - 1]);
            !q'.stale && Contents(q') != [] && Contents(q')[|Contents(q')| - 1] == v[|v| - 1]
  {
    hide UnreadAll, Unread, DistinctIds;
    OldPrefixMeaning(q.segs, cutoff);
    var n := OldPrefix(q.segs, cutoff);
    LastUnread(q.segs, n);
  }

  lemma LastUnread(segs: seq<Seg>, n: nat)
    requires n < |segs| && Unread(segs[|segs| - 1]) != []
    ensures var u, v := UnreadAll(segs[n..]), Unread(segs[|segs| - 1]);
            u != [] && u[|u| - 1] == v[|v| - 1]
  {
    hide UnreadAll, Unread;
    var last := |segs| - 1;
    assert segs[n..] == segs[n..last] + [segs[last]];
    UnreadConcat(segs[n..last], [segs[last]]);
    UnreadOne(segs[last]);
  }

  /** A write that is stored goes into the last segment, and dates it. */
  lemma AppendModifiesTail(q: State, b: Block, at: int)
    requires Shape(q) && !q.stale && Append(q, b, at).1 == Ok
    ensures var s := Append(q, b, at).0.segs;
            s != [] && s[|s| - 1].modified == at
            && Unread(s[|s| - 1]) != [] && Unread(s[|s| - 1])[|Unread(s[|s| - 1])| - 1] == b
  {
    hide Usage, MaxId, DistinctIds;
  }

  /** A head segment that was read at or after the cutoff and has blocks left keeps a purge from removing anything. */
  lemma RecentReadStays(q: State, at: int, cutoff: int, now: int, spins: nat)
    requires Shape(q) && q.segs[0].head + 1 < |q.segs[0].blocks| && at >= cutoff
    ensures Purge(Advance(q, at).0, cutoff, now, spins) == Advance(q, at).0
  {
    var q1 := Advance(q, at).0;
    assert q1.segs[0].modified == at;
    assert OldPrefix(q1.segs, cutoff) == 0;
    assert q1.segs[0..] == q1.segs;
  }

  /** The clock, read once in every pass, shows t or later in some pass from m on. */
  ghost predicate Reaches(clock: nat -> int, t: int, m: nat) {
    exists k: nat :: k >= m && clock(k) >= t
  }

  /** The first pass that makes a new segment, when all segments are old and pass i is next. */
  function FirstNew(q: State, i: nat): nat
    requires q.segs != []
  {
    i + |q.segs| - 1
  }

  /** The loop can end: some segment is recent, or a new one will be. */
  ghost predicate CanEnd(q: State, cutoff: int, clock: nat -> int, i: nat)
    requires q.segs != []
  {
    !AllOld(q.segs, cutoff) || Reaches(clock, cutoff, FirstNew(q, i))
  }

  /** If all segments are old, last is the first pass to make a new segment that is not. */
  ghost predicate LastPass(q: State, cutoff: int, clock: nat -> int, i: nat, last: nat)
    requires q.segs != []
  {
    AllOld(q.segs, cutoff) ==>
      && FirstNew(q, i) <= last && clock(last) >= cutoff
      && forall k :: FirstNew(q, i) <= k < last ==> clock(k) < cutoff
  }

  /** How many new segments were made and removed again before pass last. */
  function Spins(q: State, i: nat, last: nat): nat
    requires q.segs != []
  {
    if FirstNew(q, i) <= last then last - FirstNew(q, i) else 0
  }

  /** What the purge leaves, when pass i is next. */
  function Outcome(q: State, cutoff: int, clock: nat -> int, i: nat, last: nat): State
    requires q.segs != []
  {
    Purge(q, cutoff, clock(last), Spins(q, i, last))
  }

  lemma RecentOutcome(q: State, cutoff: int, clock: nat -> int, i: nat, last: nat)
    requires q.segs != [] && !Old(q.segs[0], cutoff)
    ensures Outcome(q, cutoff, clock, i, last) == q
  {
    assert q.segs[0..] == q.segs;
  }

  lemma {:induction false} LeastPass(clock: nat -> int, cutoff: int, m: nat, k: nat) returns (last: nat)
    requires m <= k && clock(k) >= cutoff
    ensures m <= last && clock(last) >= cutoff && forall j :: m <= j < last ==> clock(j) < cutoff
    decreases k - m
  {
    if clock(m) >= cutoff {
      last := m;
    } else {
      last := LeastPass(clock, cutoff, m + 1, k);
    }
  }

  lemma HasLastPass(q: State, cutoff: int, clock: nat -> int, i: nat) returns (last: nat)
    requires q.segs != [] && CanEnd(q, cutoff, clock, i)
    ensures LastPass(q, cutoff, clock, i, last)
  {
    last := 0;
    if AllOld(q.segs, cutoff) {
      var k: nat :| k >= FirstNew(q, i) && clock(k) >= cutoff;
      last := LeastPass(clock, cutoff, FirstNew(q, i), k);
    }
  }

  /** How many passes are still to come. */
  ghost function PassesLeft(q: State, cutoff: int, i: nat, last: nat): int {
    if AllOld(q.segs, cutoff) then last + 1 - i else OldPrefix(q.segs, cutoff)
  }

  /** One pass of the loop leaves the outcome of the purge as it was and brings the end nearer. */
  lemma PurgePassProgress(q: State, cutoff: int, clock: nat -> int, i: nat, last: nat)
    requires q.open && q.segs != [] && Old(q.segs[0], cutoff) && LastPass(q, cutoff, clock, i, last)
    ensures var q' := PurgePass(q, clock(i));
            && q'.segs != []
            && LastPass(q', cutoff, clock, i + 1, last)
            && Outcome(q', cutoff, clock, i + 1, last) == Outcome(q, cutoff, clock, i, last)
            && 0 <= PassesLeft(q', cutoff, i + 1, last) < PassesLeft(q, cutoff, i, last)
  {
    if |q.segs| == 1 {
      PassRenews(q, cutoff, clock, i, last);
    } else {
      PassTrims(q, cutoff, clock, i, last);
    }
  }

  lemma PassRenews(q: State, cutoff: int, clock: nat -> int, i: nat, last: nat)
    requires q.open && |q.segs| == 1 && Old(q.segs[0], cutoff) && LastPass(q, cutoff, clock, i, last)
    ensures var q' := PurgePass(q, clock(i));
            && q'.segs == [Fresh(q.segs[0].id + 1, clock(i))]
            && LastPass(q', cutoff, clock, i + 1, last)
            && Outcome(q', cutoff, clock, i + 1, last) == Outcome(q, cutoff, clock, i, last)
            && 0 <= PassesLeft(q', cutoff, i + 1, last) < PassesLeft(q, cutoff, i, last)
  {
    var q' := PurgePass(q, clock(i));
    MaxIdOrdered(q);
    var s := Fresh(q.segs[0].id + 1, clock(i));
    assert AddSegment(q, clock(i)).segs == [q.segs[0], s];
    assert q'.segs == [s];
    OldPrefixMeaning(q.segs, cutoff);
    OldPrefixMeaning(q'.segs, cutoff);
    if clock(i) >= cutoff {
      assert last == i;
      assert [s][0..] == [s];
    }
  }

  lemma PassTrims(q: State, cutoff: int, clock: nat -> int, i: nat, last: nat)
    requires q.open && |q.segs| > 1 && Old(q.segs[0], cutoff) && LastPass(q, cutoff, clock, i, last)
    ensures var q' := PurgePass(q, clock(i));
            && q'.segs == q.segs[1..]
            && LastPass(q', cutoff, clock, i + 1, last)
            && Outcome(q', cutoff, clock, i + 1, last) == Outcome(q, cutoff, clock, i, last)
            && 0 <= PassesLeft(q', cutoff, i + 1, last) < PassesLeft(q, cutoff, i, last)
  {
    var q' := PurgePass(q, clock(i));
    var m := OldPrefix(q'.segs, cutoff);
    AllOldRest(q.segs, cutoff);
    OldPrefixMeaning(q.segs, cutoff);
    OldPrefixMeaning(q'.segs, cutoff);
    if m < |q'.segs| {
      assert q.segs[1..][m..] == q.segs[m + 1..];
    } else {
      assert q'.segs[|q'.segs| - 1] == q.segs[|q.segs| - 1];
    }
  }

  lemma AllOldRest(segs: seq<Seg>, cutoff: int)
    requires segs != [] && Old(segs[0], cutoff)
    ensures AllOld(segs[1..], cutoff) <==> AllOld(segs, cutoff)
  {
    assert segs == [segs[0]] + segs[1..];
  }

  /** The queue after n passes of the loop, of which the first is pass i. */
  function Passes(q: State, n: nat, clock: nat -> int, i: nat): (q': State)
    requires q.segs != []
    ensures q'.segs != []
    decreases n
  {
    if n == 0 then q else Passes(PurgePass(q, clock(i)), n - 1, clock, i + 1)
  }

  lemma {:induction false} AllOldForever(q: State, n: nat, cutoff: int, clock: nat -> int, i: nat)
    requires q.segs != [] && !CanEnd(q, cutoff, clock, i)
    ensures AllOld(Passes(q, n, clock, i).segs, cutoff)
    decreases n
  {
    if n == 0 {
    } else {
      var q' := PurgePass(q, clock(i));
      assert !CanEnd(q', cutoff, clock, i + 1) by {
        if |q.segs| == 1 {
          assert FirstNew(q, i) == i && clock(i) < cutoff;
          assert AllOld(q'.segs, cutoff);
        } else {
          AllOldRest(q.segs, cutoff);
        }
      }
      AllOldForever(q', n - 1, cutoff, clock, i + 1);
    }
  }

  lemma {:induction false} ReachesRecent(q: State, cutoff: int, clock: nat -> int, i: nat, last: nat) returns (n: nat)
    requires q.open && q.segs != [] && LastPass(q, cutoff, clock, i, last)
    ensures !Old(Passes(q, n, clock, i).segs[0], cutoff)
    decreases PassesLeft(q, cutoff, i, last)
  {
    if !Old(q.segs[0], cutoff) {
      n := 0;
    } else {
      PurgePassProgress(q, cutoff, clock, i, last);
      n := ReachesRecent(PurgePass(q, clock(i)), cutoff, clock, i + 1, last);
      n := n + 1;
    }
  }

  /**
   The loop of PurgeOlderThan ends if and only if some segment is recent, or the
   clock reaches the cutoff in one of the passes that make a new segment.
   */
  lemma PurgeEndsIff(q: State, cutoff: int, clock: nat -> int)
    requires q.open && q.segs != []
    ensures (exists n: nat :: !Old(Passes(q, n, clock, 0).segs[0], cutoff))
            <==> !AllOld(q.segs, cutoff) || Reaches(clock, cutoff, |q.segs| - 1)
  {
    if CanEnd(q, cutoff, clock, 0) {
      var last := HasLastPass(q, cutoff, clock, 0);
      var n := ReachesRecent(q, cutoff, clock, 0, last);
    } else {
      forall n: nat
        ensures Old(Passes(q, n, clock, 0).segs[0], cutoff)
      {
        AllOldForever(q, n, cutoff, clock, 0);
      }
    }
  }

  /** With a clock that passes every time, the loop ends for every cutoff. */
  lemma PurgeEndsInTime(q: State, cutoff: int, clock: nat -> int) returns (n: nat)
    requires q.open && q.segs != [] && forall t, m :: Reaches(clock, t, m)
    ensures !Old(Passes(q, n, clock, 0).segs[0], cutoff)
  {
    assert Reaches(clock, cutoff, |q.segs| - 1);
    PurgeEndsIff(q, cutoff, clock);
    n :| !Old(Passes(q, n, clock, 0).segs[0], cutoff);
  }

  /**
   For example: a cutoff two passes ahead of the clock drops a queue of one
   segment and leaves its third successor.
   */
  lemma FutureCutoff(q: State, s: Seg)
    requires q.open && q.segs == [s] && s.modified < 2
    ensures var clock := (k: nat) => k;
            && Old(Passes(q, 2, clock, 0).segs[0], 2)
            && Passes(q, 3, clock, 0).segs == [Fresh(s.id + 3, 2)] && !Old(Fresh(s.id + 3, 2), 2)
  {
    var clock := (k: nat) => k;
    var q1 := PurgePass(q, 0);
    PassRenewed(q, 0);
    PassRenewed(q1, 1);
    PassRenewed(PurgePass(q1, 1), 2);
    assert Passes(q, 2, clock, 0) == Passes(q1, 1, clock, 1) == Passes(PurgePass(q1, 1), 0, clock, 2);
    assert Passes(q, 3, clock, 0) == Passes(q1, 2, clock, 1) == Passes(PurgePass(q1, 1), 1, clock, 2);
  }

  lemma PassRenewed(q: State, now: int)
    requires |q.segs| == 1
    ensures PurgePass(q, now).segs == [Fresh(q.segs[0].id + 1, now)]
  {
    MaxIdOrdered(q);
    assert AddSegment(q, now).segs == [q.segs[0], Fresh(q.segs[0].id + 1, now)];
  }
}
