/**
 The node processor: writers put marshalled writes into the queue while one
 sender takes them out again, block by block.  A run is any interleaving of
 the atomic steps below.
 */
module Handoff {
  import opened BigEndian
  import opened Options
  import opened SegmentFormat
  import opened QueueModel
  import opened QueueProofs
  import opened QueuePurge
  import opened QueueReopen

  // ---------------------------------------------------------------- the block format

  const NEWLINE: byte := 10

  /** The points in line protocol, each ended by a newline. */
  function Lines(points: seq<seq<byte>>): seq<byte> {
    if points == [] then [] else Lines(points[..|points| - 1]) + points[|points| - 1] + [NEWLINE]
  }

  /** The bytes that the points take: one more than each. */
  function TextLength(points: seq<seq<byte>>): nat {
    if points == [] then 0 else |points[0]| + 1 + TextLength(points[1..])
  }

  /** Where the first line of a text ends. */
  function LineEnd(text: seq<byte>): (k: nat)
    ensures k <= |text| && NEWLINE !in text[..k] && (k < |text| ==> text[k] == NEWLINE)
  {
    if text == [] || text[0] == NEWLINE then 0
    else
      var k := LineEnd(text[1..]);
      assert text[..k + 1] == [text[0]] + text[1..][..k];
      k + 1
  }

  /** A reader of its own: cuts a text at its newlines. */
  function CutLines(text: seq<byte>): seq<seq<byte>>
    decreases |text|
  {
    var k := LineEnd(text);
    if text == [] then [] else if k == |text| then [text] else [text[..k]] + CutLines(text[k + 1..])
  }

  predicate NoNewlines(points: seq<seq<byte>>) {
    forall i :: 0 <= i < |points| ==> NEWLINE !in points[i]
  }

  lemma {:induction false} LinesFromFront(points: seq<seq<byte>>)
    requires points != []
    ensures Lines(points) == points[0] + [NEWLINE] + Lines(points[1..])
  {
    var n := |points| - 1;
    if n == 0 {
      assert points[..0] == [] && points[1..] == [];
      assert Lines(points) == Lines([]) + points[0] + [NEWLINE];
    } else {
      LinesFromFront(points[..n]);
      assert points[..n][1..] == points[1..][..n - 1] && points[1..][n - 1] == points[n];
      var rest := Lines(points[1..][..n - 1]);
      assert Lines(points) == (points[0] + [NEWLINE] + rest) + points[n] + [NEWLINE];
      assert Lines(points) == points[0] + [NEWLINE] + (rest + points[n] + [NEWLINE]);
    }
  }

  lemma {:induction false} LinesLength(points: seq<seq<byte>>)
    ensures |Lines(points)| == TextLength(points)
  {
    if points == [] {
    } else {
      LinesFromFront(points);
      LinesLength(points[1..]);
    }
  }

  lemma {:induction false} FirstLineEnd(p: seq<byte>, rest: seq<byte>)
    requires NEWLINE !in p
    ensures LineEnd(p + [NEWLINE] + rest) == |p|
  {
    var text := p + [NEWLINE] + rest;
    if p == [] {
    } else {
      FirstLineEnd(p[1..], rest);
      assert text[1..] == p[1..] + [NEWLINE] + rest;
    }
  }

  lemma {:induction false} LinesAreCut(points: seq<seq<byte>>)
    requires NoNewlines(points)
    ensures CutLines(Lines(points)) == points
  {
    if points == [] {
    } else {
      var p, rest := points[0], Lines(points[1..]);
      LinesFromFront(points);
      FirstLineEnd(p, rest);
      LinesAreCut(points[1..]);
      var text := p + [NEWLINE] + rest;
      assert text[..|p|] == p && text[|p| + 1..] == rest;
    }
  }

  lemma {:induction false} CutWithoutNewlines(text: seq<byte>)
    ensures NoNewlines(CutLines(text))
    decreases |text|
  {
    var k := LineEnd(text);
    if text == [] || k == |text| {
      assert text[..|text|] == text;
    } else {
      CutWithoutNewlines(text[k + 1..]);
    }
  }

  /** The lines of a text are the points that were put into it if and only if no point has a newline. */
  lemma LinesRoundTripIff(points: seq<seq<byte>>)
    ensures CutLines(Lines(points)) == points <==> NoNewlines(points)
  {
    CutWithoutNewlines(Lines(points));
    if NoNewlines(points) {
      LinesAreCut(points);
    }
  }

  /** Splits a block into the shard id and the text that is then parsed into points. */
  function UnmarshalWrite(b: Block): (r: Option<(nat, seq<byte>)>) {
    if |b| < 8 then None else Some((Uint64(b[..8]), b[8..]))
  }

  /** The block holds the shard id and, cut at newlines, exactly the points. */
  ghost predicate Holds(b: Block, shardID: nat, points: seq<seq<byte>>) {
    && |b| == 8 + TextLength(points)
    && UnmarshalWrite(b).Some?
    && (shardID < TWO_64 ==> UnmarshalWrite(b).value.0 == shardID)
    && (CutLines(UnmarshalWrite(b).value.1) == points <==> NoNewlines(points))
  }

  /** Unmarshalling recovers the shard id and, unless a point has a newline, the points. */
  lemma MarshalRoundTrip(shardID: nat, points: seq<seq<byte>>)
    ensures Holds(PutUint64(shardID) + Lines(points), shardID, points)
  {
    var b := PutUint64(shardID) + Lines(points);
    assert b[..8] == PutUint64(shardID) && b[8..] == Lines(points);
    LinesLength(points);
    LinesRoundTripIff(points);
    hide PutUint64, Uint64, Lines, CutLines;
    if shardID < TWO_64 {
      Uint64RoundTrip(shardID, b[..8]);
    }
  }

  method MarshalWrite(shardID: nat, points: seq<seq<byte>>) returns (b: Block)
    ensures b == PutUint64(shardID) + Lines(points)
    ensures |b| >= 8 && Holds(b, shardID, points)
  {
    hide PutUint64, Holds;
    b := PutUint64(shardID);
    for i := 0 to |points|
      invariant b == PutUint64(shardID) + Lines(points[..i])
    {
      b := b + points[i];
      b := b + [NEWLINE];
      assert points[..i + 1][..i] == points[..i];
      assert b == PutUint64(shardID) + (Lines(points[..i]) + points[i] + [NEWLINE]);
    }
    assert points[..|points|] == points;
    MarshalRoundTrip(shardID, points);
  }

  // ---------------------------------------------------------------- the steps

  /** What became of an accepted block that is no longer in the queue. */
  datatype Fate =
    | Delivered(b: Block)
    | Skipped(b: Block)     // it could not be parsed
    | Purged(b: Block)
    | Lost(b: Block)        // the tail was stale: Append answered Ok and stored nothing

  datatype Sender = Idle | Holding(b: Block)

  /** The queue and the sender, with the log of accepted blocks and of what became of them. */
  datatype Node = Node(q: State, sender: Sender, accepted: seq<Block>, gone: seq<Fate>)

  datatype Event =
    | Write(b: Block, time: int)           // WriteShard, by any writer at any moment
    | Read                                 // SendWrite up to the block it got, or its EOF
    | Fail                                 // the write to the remote node failed
    | Finish(delivered: bool, time: int)   // the block was sent or found unparseable, and Advance was called
    | Purge(cutoff: int, time: int, spins: nat)   // by the sender's own goroutine, between sends
    | Reopen(time: int)                    // Close and Open

  predicate Enabled(n: Node, e: Event) {
    match e
    case Write(b, _) => b != []
    case Read => n.sender.Idle?
    case Fail => n.sender.Holding?
    case Finish(_, _) => n.sender.Holding?
    case Purge(_, _, _) => n.sender.Idle?
    case Reopen(_) => n.sender.Idle?
  }

  function PurgedAll(bs: seq<Block>): (fates: seq<Fate>)
    ensures |fates| == |bs| && forall i :: 0 <= i < |bs| ==> fates[i] == Purged(bs[i])
  {
    if bs == [] then [] else [Purged(bs[0])] + PurgedAll(bs[1..])
  }

  function Next(n: Node, e: Event): Node
    requires n.q.open && n.q.segs != [] && Enabled(n, e)
  {
    match e
    case Write(b, now) =>
      var (q, status) := Append(n.q, b, now);
      if status != Ok then n.(q := q)
      else if n.q.stale then n.(q := q, accepted := n.accepted + [b], gone := n.gone + [Lost(b)])
      else n.(q := q, accepted := n.accepted + [b])
    case Read =>
      var (q, status, b) := Current(n.q);
      if status == Ok then n.(q := q, sender := Holding(b)) else n.(q := q)
    case Fail => n.(sender := Idle)
    case Finish(delivered, now) =>
      var b := n.sender.b;
      n.(q := Advance(n.q, now).0, sender := Idle, gone := n.gone + [if delivered then Delivered(b) else Skipped(b)])
    case Purge(cutoff, now, spins) =>
      var dropped := UnreadAll(n.q.segs[..OldPrefix(n.q.segs, cutoff)]);
      n.(q := QueueModel.Purge(n.q, cutoff, now, spins), gone := n.gone + PurgedAll(dropped))
    case Reopen(now) => n.(q := QueueReopen.Reopen(n.q, now))
  }

  function Blocks(fates: seq<Fate>): (bs: seq<Block>)
    ensures |bs| == |fates| && forall i :: 0 <= i < |fates| ==> bs[i] == fates[i].b
  {
    if fates == [] then [] else [fates[0].b] + Blocks(fates[1..])
  }

  // ---------------------------------------------------------------- conservation

  /**
   Every accepted block is accounted for: it left the queue, or it is still in
   it.  A block in the sender's hands is still the first of the queue.
   */
  ghost predicate Accounted(n: Node) {
    && Inv(n.q)
    && multiset(n.accepted) == multiset(Blocks(n.gone)) + multiset(Contents(n.q))
    && (n.sender.Holding? ==> !Drained(n.q.segs[0]) && Contents(n.q) != [] && n.sender.b == Contents(n.q)[0])
  }

  /** The same in the order of acceptance: first the blocks that left, then the blocks still in the queue. */
  ghost predicate InOrder(n: Node) {
    Accounted(n) && Ordered(n.q) && n.accepted == Blocks(n.gone) + Contents(n.q)
  }

  lemma BlocksSnoc(fates: seq<Fate>, f: Fate)
    ensures Blocks(fates + [f]) == Blocks(fates) + [f.b]
  {
  }

  lemma {:induction false} PurgedBlocks(bs: seq<Block>)
    ensures Blocks(PurgedAll(bs)) == bs
  {
    if bs == [] {
    } else {
      PurgedBlocks(bs[1..]);
      assert PurgedAll(bs)[1..] == PurgedAll(bs[1..]);
    }
  }

  lemma BlocksConcat(a: seq<Fate>, b: seq<Fate>)
    ensures Blocks(a + b) == Blocks(a) + Blocks(b)
  {
  }

  /** Appending never drains the head and never changes the first block. */
  lemma WriteKeepsFirst(q: State, b: Block, now: int)
    requires Shape(q) && !Drained(q.segs[0])
    ensures var q' := Append(q, b, now).0;
            && q'.segs != [] && !Drained(q'.segs[0])
            && Contents(q) != [] && Contents(q') != [] && Contents(q')[0] == Contents(q)[0]
  {
    hide Usage, MaxId, DistinctIds, UnreadAll, Stores, Ordered;
    assert Unread(q.segs[0]) != [];
    HeadSplit(q);
    AppendRefines(q, b, now);
  }

  lemma WriteStep(n: Node, b: Block, now: int)
    requires Accounted(n) && b != []
    ensures Accounted(Next(n, Write(b, now)))
    ensures InOrder(n) ==> InOrder(Next(n, Write(b, now)))
  {
    hide Append, Usage, Bounded, CachesRight, Blocks, Ordered, UnreadAll, DistinctIds, Stores;
    AppendRefines(n.q, b, now);
    AppendKeepsInv(n.q, b, now);
    if n.q.stale {
      BlocksSnoc(n.gone, Lost(b));
      NothingUnread(n.q.segs);
    } else if Stores(n.q, b) {
      assert Blocks(n.gone) + (Contents(n.q) + [b]) == (Blocks(n.gone) + Contents(n.q)) + [b];
    }
    if n.sender.Holding? {
      WriteKeepsFirst(n.q, b, now);
    }
  }

  lemma ReadStep(n: Node)
    requires Accounted(n) && n.sender.Idle?
    ensures Accounted(Next(n, Read))
    ensures InOrder(n) ==> InOrder(Next(n, Read))
  {
    hide Current, Bounded, CachesRight, Blocks, Ordered, UnreadAll, DistinctIds;
    CurrentRefines(n.q);
  }

  lemma FirstLeaves(gone: seq<Fate>, f: Fate, c: seq<Block>)
    requires c != [] && c[0] == f.b
    ensures Blocks(gone) + c == Blocks(gone + [f]) + c[1..]
    ensures multiset(Blocks(gone)) + multiset(c) == multiset(Blocks(gone + [f])) + multiset(c[1..])
  {
    BlocksSnoc(gone, f);
    assert c == [c[0]] + c[1..];
  }

  lemma FinishStep(n: Node, delivered: bool, now: int)
    requires Accounted(n) && n.sender.Holding?
    ensures Accounted(Next(n, Finish(delivered, now)))
    ensures InOrder(n) ==> InOrder(Next(n, Finish(delivered, now)))
    ensures Contents(Next(n, Finish(delivered, now)).q) == Contents(n.q)[1..]
  {
    hide Advance, Inv, Blocks, Ordered, Contents, Stalled, AdvanceMeetsGap;
    AdvanceRefines(n.q, now);
    assert n.q.open && n.q.segs != [] by { InvOpen(n.q); }
    FirstLeaves(n.gone, if delivered then Delivered(n.sender.b) else Skipped(n.sender.b), Contents(n.q));
  }

  lemma InvOpen(q: State)
    requires Inv(q)
    ensures q.open && q.segs != []
  {
  }

  lemma PurgeStep(n: Node, cutoff: int, now: int, spins: nat)
    requires Accounted(n) && n.sender.Idle?
    ensures Accounted(Next(n, Event.Purge(cutoff, now, spins)))
    ensures InOrder(n) ==> InOrder(Next(n, Event.Purge(cutoff, now, spins)))
  {
    hide QueueModel.Purge, OldPrefix, Bounded, CachesRight, Blocks, Ordered, UnreadAll, DistinctIds;
    var k := OldPrefix(n.q.segs, cutoff);
    var dropped := UnreadAll(n.q.segs[..k]);
    PurgeRefines(n.q, cutoff, now, spins, k);
    PurgeKeepsInv(n.q, cutoff, now, spins);
    PurgedBlocks(dropped);
    BlocksConcat(n.gone, PurgedAll(dropped));
    var c := Contents(QueueModel.Purge(n.q, cutoff, now, spins));
    assert Blocks(n.gone) + (dropped + c) == (Blocks(n.gone) + dropped) + c;
  }

  /** What a purge does: the unread blocks of the first segments leave, all of which were last modified too early. */
  ghost predicate PurgeDoes(n: Node, cutoff: int, n': Node, k: nat) {
    && k <= |n.q.segs|
    && (forall i :: 0 <= i < k ==> n.q.segs[i].modified < cutoff)
    && (k < |n.q.segs| ==> n.q.segs[k].modified >= cutoff)
    && Contents(n.q) == UnreadAll(n.q.segs[..k]) + Contents(n'.q)
    && n'.gone == n.gone + PurgedAll(UnreadAll(n.q.segs[..k]))
    && n'.accepted == n.accepted && n'.sender == n.sender
  }

  lemma PurgeOutcome(n: Node, cutoff: int, now: int, spins: nat) returns (k: nat)
    requires Accounted(n) && n.sender.Idle?
    ensures n.q.open && n.q.segs != []
    ensures PurgeDoes(n, cutoff, AfterPurge(n, cutoff, now, spins), k)
  {
    hide QueueModel.Purge, OldPrefix, Bounded, CachesRight, Blocks, UnreadAll, DistinctIds;
    k := OldPrefix(n.q.segs, cutoff);
    PurgeRefines(n.q, cutoff, now, spins, k);
  }

  lemma ReopenStep(n: Node, now: int)
    requires Accounted(n) && n.sender.Idle?
    ensures Accounted(Next(n, Event.Reopen(now)))
    ensures InOrder(n) && OneWidth(n.q) ==> InOrder(Next(n, Event.Reopen(now)))
  {
    hide QueueReopen.Reopen, Bounded, CachesRight, Blocks, Ordered, UnreadAll, DistinctIds;
    ReopenKeeps(n.q, now);
    if InOrder(n) && OneWidth(n.q) {
      ReopenPreserves(n.q, now);
    }
  }

  /** A queue found on disk: its blocks count as accepted, and none has left. */
  lemma OpenedAccounted(n: Node)
    requires Inv(n.q) && n.sender.Idle? && n.accepted == Contents(n.q) && n.gone == []
    ensures Accounted(n) && n.q.open
  {
  }

  /** A write from start to end, for any node. */
  function AfterWrite(n: Node, b: Block, now: int): Node {
    if n.q.open && n.q.segs != [] && b != [] then Next(n, Write(b, now)) else n
  }

  lemma WriteEffect(n: Node, b: Block, now: int)
    requires Accounted(n) && b != []
    ensures n.q.open && n.q.segs != []
    ensures var n' := AfterWrite(n, b, now);
            && Accounted(n') && n'.sender == n.sender
            && n'.q == Append(n.q, b, now).0
            && n'.q.open
            && (Append(n.q, b, now).1 == Ok <==> n'.accepted == n.accepted + [b])
  {
    WriteStep(n, b, now);
    hide Append, Bounded, CachesRight, Blocks, UnreadAll, DistinctIds;
    AppendRefines(n.q, b, now);
  }

  /** What a write answers and does. */
  ghost predicate WriteDoes(n: Node, b: Block, n': Node, status: Status) {
    && status == (if Usage(n.q.segs) + |b| > n.q.maxSize then ErrQueueFull
                  else if !n.q.stale && 8 + |b| > n.q.maxSegmentSize then ErrSegmentFull
                  else Ok)
    && n'.sender == n.sender
    && n'.accepted == (if status == Ok then n.accepted + [b] else n.accepted)
    && n'.gone == (if status == Ok && n.q.stale then n.gone + [Lost(b)] else n.gone)
    && Contents(n'.q) == (if status == Ok && !n.q.stale then Contents(n.q) + [b] else Contents(n.q))
  }

  lemma WriteOutcome(n: Node, b: Block, now: int)
    requires Accounted(n) && b != []
    ensures n.q.open && n.q.segs != []
    ensures WriteDoes(n, b, AfterWrite(n, b, now), Append(n.q, b, now).1)
  {
    hide Append, Bounded, CachesRight, Blocks, UnreadAll, DistinctIds, Usage;
    AppendRefines(n.q, b, now);
  }

  /** How an attempt to send ends. */
  datatype SendResult = Sent(bytes: nat) | NodeInactive | NoBlock | Unparseable | RemoteFailed

  /** The sender's first step, for any node. */
  function AfterRead(n: Node): Node {
    if n.q.open && n.q.segs != [] && n.sender.Idle? then Next(n, Read) else n
  }

  function AfterFinish(n: Node, delivered: bool, now: int): Node {
    if n.q.open && n.q.segs != [] && n.sender.Holding? then Next(n, Finish(delivered, now)) else n
  }

  /** What becomes of a block in the sender's hands. */
  function AfterHeld(m: Node, parses: bool, remoteOk: bool, now: int): (Node, SendResult)
    requires m.sender.Holding?
  {
    if |m.sender.b| < 8 || !parses then (AfterFinish(m, false, now), Unparseable)
    else if !remoteOk then (m.(sender := Idle), RemoteFailed)
    else (AfterFinish(m, true, now), SendResult.Sent(|m.sender.b|))
  }

  /** Writes, one after the other, for any node. */
  function AfterWrites(n: Node, bs: seq<Block>, now: int): Node {
    if bs == [] then n else AfterWrite(AfterWrites(n, bs[..|bs| - 1], now), bs[|bs| - 1], now)
  }

  /** An attempt to send, with writes between its two steps. */
  function AfterSend(n: Node, during: seq<Block>, parses: bool, remoteOk: bool, now: int): (Node, SendResult) {
    var m := AfterRead(n);
    if m.sender.Idle? then (m, NoBlock)
    else
      var m' := AfterWrites(m, during, now);
      if m'.sender.Holding? then AfterHeld(m', parses, remoteOk, now) else (m', NoBlock)
  }

  /** Writes leave the sender alone, and the block in its hands at the front. */
  lemma {:induction false} WritesKeepSender(n: Node, bs: seq<Block>, now: int)
    requires Accounted(n) && forall i :: 0 <= i < |bs| ==> bs[i] != []
    ensures Accounted(AfterWrites(n, bs, now)) && AfterWrites(n, bs, now).sender == n.sender
    decreases |bs|
  {
    hide Accounted, AfterWrite;
    if bs == [] {
    } else {
      WritesKeepSender(n, bs[..|bs| - 1], now);
      WriteEffect(AfterWrites(n, bs[..|bs| - 1], now), bs[|bs| - 1], now);
    }
  }

  /** The blocks of a list of writes that are stored, and the queue after them. */
  function Taken(q: State, bs: seq<Block>, now: int): (State, seq<Block>) {
    if bs == [] then (q, [])
    else
      var (p, took) := Taken(q, bs[..|bs| - 1], now);
      var b := bs[|bs| - 1];
      if p.open && p.segs == [] then (p, took)
      else (Append(p, b, now).0, if Stores(p, b) then took + [b] else took)
  }

  /** Writes put exactly the stored blocks behind the others and log them as accepted. */
  lemma {:induction false} WritesTake(n: Node, bs: seq<Block>, now: int)
    requires Accounted(n) && !n.q.stale && forall i :: 0 <= i < |bs| ==> bs[i] != []
    ensures var n' := AfterWrites(n, bs, now);
            var (q', took) := Taken(n.q, bs, now);
            && Accounted(n') && n'.q == q' && !q'.stale && n'.sender == n.sender && n'.gone == n.gone
            && Contents(q') == Contents(n.q) + took && n'.accepted == n.accepted + took
    decreases |bs|
  {
    hide Append, Stores, Accounted, AfterWrite, Contents;
    if bs == [] {
    } else {
      var b := bs[|bs| - 1];
      WritesTake(n, bs[..|bs| - 1], now);
      OneWriteTakes(AfterWrites(n, bs[..|bs| - 1], now), b, now);
    }
  }

  lemma OneWriteTakes(n: Node, b: Block, now: int)
    requires Accounted(n) && !n.q.stale && b != []
    ensures n.q.open && n.q.segs != []
    ensures var n' := AfterWrite(n, b, now);
            && Accounted(n') && n'.q == Append(n.q, b, now).0 && !n'.q.stale
            && n'.sender == n.sender && n'.gone == n.gone
            && Contents(n'.q) == Contents(n.q) + (if Stores(n.q, b) then [b] else [])
            && n'.accepted == n.accepted + (if Stores(n.q, b) then [b] else [])
  {
    WriteStep(n, b, now);
    hide Append, Bounded, CachesRight, Blocks, UnreadAll, DistinctIds, Stores;
    AppendRefines(n.q, b, now);
  }

  /**
   What an attempt to send answers and does, for a sender that holds no block:
   which of the four answers an active node gives, and which block leaves.
   */
  ghost predicate SendDoes(
    n: Node, during: seq<Block>, parses: bool, remoteOk: bool, now: int, n': Node, r: SendResult)
  {
    && n.q.segs != []
    && if Drained(n.q.segs[0]) then r == NoBlock && n' == n
       else
         && Contents(n.q) != []
         && var b := Contents(n.q)[0];
            var rest := Contents(n.q)[1..] + Taken(n.q, during, now).1;
            && n'.accepted == n.accepted + Taken(n.q, during, now).1
            && if |b| < 8 || !parses then
                 r == Unparseable && Contents(n'.q) == rest && n'.gone == n.gone + [Skipped(b)]
               else if remoteOk then
                 r == SendResult.Sent(|b|) && Contents(n'.q) == rest && n'.gone == n.gone + [Delivered(b)]
               else
                 r == RemoteFailed && Contents(n'.q) == [b] + rest && n'.gone == n.gone
  }

  /** What becomes of a block in the sender's hands. */
  ghost predicate HeldDoes(m: Node, parses: bool, remoteOk: bool, n': Node, r: SendResult)
    requires m.sender.Holding?
  {
    var b := m.sender.b;
    && Contents(m.q) != [] && b == Contents(m.q)[0] && n'.accepted == m.accepted
    && if |b| < 8 || !parses then
         r == Unparseable && Contents(n'.q) == Contents(m.q)[1..] && n'.gone == m.gone + [Skipped(b)]
       else if remoteOk then
         r == SendResult.Sent(|b|) && Contents(n'.q) == Contents(m.q)[1..] && n'.gone == m.gone + [Delivered(b)]
       else
         r == RemoteFailed && Contents(n'.q) == Contents(m.q) && n'.gone == m.gone
  }

  lemma HeldOutcome(m: Node, parses: bool, remoteOk: bool, now: int)
    requires Accounted(m) && m.sender.Holding?
    ensures var (n', r) := AfterHeld(m, parses, remoteOk, now); HeldDoes(m, parses, remoteOk, n', r)
  {
    hide Advance, Contents, Inv, Blocks, InOrder;
    InvOpen(m.q);
    FinishStep(m, true, now);
    FinishStep(m, false, now);
  }

  lemma HeldThenSent(
    n: Node, w: Node, during: seq<Block>, parses: bool, remoteOk: bool, now: int, n': Node, r: SendResult)
    requires n.q.segs != [] && !Drained(n.q.segs[0]) && Contents(n.q) != []
    requires w.sender == Holding(Contents(n.q)[0]) && HeldDoes(w, parses, remoteOk, n', r) && w.gone == n.gone
    requires Contents(w.q) == Contents(n.q) + Taken(n.q, during, now).1
    requires w.accepted == n.accepted + Taken(n.q, during, now).1
    ensures SendDoes(n, during, parses, remoteOk, now, n', r)
  {
    var c, took := Contents(n.q), Taken(n.q, during, now).1;
    assert (c + took)[1..] == c[1..] + took;
    assert c + took == [c[0]] + (c[1..] + took);
    hide Contents, Taken;
  }

  /** What becomes of a block that was read, with writes before it is dealt with. */
  lemma SendHeld(n: Node, m: Node, during: seq<Block>, parses: bool, remoteOk: bool, now: int)
    requires Accounted(m) && m.sender.Holding? && m == n.(sender := m.sender) && !n.q.stale
    requires n.q.segs != [] && !Drained(n.q.segs[0]) && forall i :: 0 <= i < |during| ==> during[i] != []
    ensures AfterWrites(m, during, now).sender.Holding?
    ensures var (n', r) := AfterHeld(AfterWrites(m, during, now), parses, remoteOk, now);
            SendDoes(n, during, parses, remoteOk, now, n', r)
  {
    assert Contents(m.q) != [] && m.sender.b == Contents(m.q)[0];
    hide Accounted, AfterWrites, AfterHeld, Contents, Taken, HeldDoes, SendDoes;
    WritesTake(m, during, now);
    var w := AfterWrites(m, during, now);
    HeldOutcome(w, parses, remoteOk, now);
    var (n', r) := AfterHeld(w, parses, remoteOk, now);
    HeldThenSent(n, w, during, parses, remoteOk, now, n', r);
  }

  /** An attempt to send never loses a block: it is delivered, skipped as unparseable, or still the first. */
  lemma SendOutcome(n: Node, during: seq<Block>, parses: bool, remoteOk: bool, now: int)
    requires Accounted(n) && n.sender.Idle? && forall i :: 0 <= i < |during| ==> during[i] != []
    ensures var (n', r) := AfterSend(n, during, parses, remoteOk, now);
            SendDoes(n, during, parses, remoteOk, now, n', r)
  {
    ReadEffect(n);
    CurrentRefines(n.q);
    assert AfterRead(n).gone == n.gone && AfterRead(n).accepted == n.accepted;
    if !Drained(n.q.segs[0]) {
      NotStale(n.q);
      hide Current, Accounted, AfterRead, AfterWrites, AfterHeld, SendDoes, Contents;
      SendHeld(n, AfterRead(n), during, parses, remoteOk, now);
    }
  }

  lemma NotStale(q: State)
    requires Shape(q) && !Drained(q.segs[0])
    ensures !q.stale
  {
  }

  /** A purge, for any node. */
  function AfterPurge(n: Node, cutoff: int, now: int, spins: nat): Node {
    if n.q.open && n.q.segs != [] && n.sender.Idle? then Next(n, Event.Purge(cutoff, now, spins)) else n
  }

  lemma PurgeEffect(n: Node, cutoff: int, now: int, spins: nat)
    requires Accounted(n) && n.sender.Idle?
    ensures n.q.open && n.q.segs != []
    ensures var n' := AfterPurge(n, cutoff, now, spins);
            Accounted(n') && n'.sender.Idle? && n'.q == QueueModel.Purge(n.q, cutoff, now, spins) && n'.q.open
  {
    PurgeStep(n, cutoff, now, spins);
  }

  lemma ReadEffect(n: Node)
    requires Accounted(n) && n.sender.Idle?
    ensures n.q.open && n.q.segs != []
    ensures var n' := AfterRead(n);
            var (q, status, b) := Current(n.q);
            && Accounted(n') && n'.q == q == n.q
            && n'.sender == (if status == Ok then Holding(b) else Idle)
            && (status == Ok || status == EOF)
  {
    ReadStep(n);
    hide Current, Bounded, CachesRight, Blocks, UnreadAll, DistinctIds;
    CurrentRefines(n.q);
  }

  lemma FinishEffect(n: Node, delivered: bool, now: int)
    requires Accounted(n) && n.sender.Holding?
    ensures n.q.open && n.q.segs != [] && CacheRight(n.q.segs[0])
    ensures var n' := AfterFinish(n, delivered, now);
            Accounted(n') && n'.sender.Idle? && n'.q == Advance(n.q, now).0 && n'.q.open
  {
    FinishStep(n, delivered, now);
    assert n.q.open && n.q.segs != [] && CacheRight(n.q.segs[0]);
    hide Advance, Inv, Blocks, Contents, Stalled;
    InvOpen(AfterFinish(n, delivered, now).q);
  }

  /** The step does not read a directory whose ids change width. */
  predicate KeepsOrder(n: Node, e: Event) {
    e.Reopen? && n.q.segs != [] ==> OneWidth(n.q)
  }

  lemma StepAccounts(n: Node, e: Event)
    requires Accounted(n) && Enabled(n, e)
    ensures Accounted(Next(n, e))
    ensures InOrder(n) && KeepsOrder(n, e) ==> InOrder(Next(n, e))
  {
    hide Next;
    match e
    case Write(b, now) => WriteStep(n, b, now);
    case Read => ReadStep(n);
    case Fail => FailStep(n);
    case Finish(delivered, now) => FinishStep(n, delivered, now);
    case Purge(cutoff, now, spins) => PurgeStep(n, cutoff, now, spins);
    case Reopen(now) => ReopenStep(n, now);
  }

  lemma FailStep(n: Node)
    requires Accounted(n) && n.sender.Holding?
    ensures Accounted(Next(n, Fail)) && Next(n, Fail) == n.(sender := Idle)
    ensures InOrder(n) ==> InOrder(Next(n, Fail))
  {
  }

  /** The steps es lead from n to n'. */
  ghost predicate Runs(n: Node, es: seq<Event>, n': Node)
    decreases |es|
  {
    if es == [] then n' == n
    else n.q.open && n.q.segs != [] && Enabled(n, es[0]) && Runs(Next(n, es[0]), es[1..], n')
  }

  /** The node right after its queue was first opened on an empty directory. */
  function Start(maxSegmentSize: int, maxSize: int, now: int): Node {
    Node(Open(State(false, [], false, maxSegmentSize, maxSize), now), Idle, [], [])
  }

  lemma StartInv(maxSegmentSize: int, maxSize: int, now: int)
    requires maxSegmentSize >= 0 && maxSize >= 0
    ensures InOrder(Start(maxSegmentSize, maxSize, now))
    ensures NoGap(Start(maxSegmentSize, maxSize, now).q) && !Stalled(Start(maxSegmentSize, maxSize, now).q)
  {
    var q := Start(maxSegmentSize, maxSize, now).q;
    assert q.segs == [Fresh(1, now)];
    UnreadOne(Fresh(1, now));
    UsageOne(Fresh(1, now));
    FreshBounded(1, now, maxSegmentSize);
  }

  /**
   Conservation, over every interleaving of one sender, any number of writers,
   purges and reopenings: no accepted block vanishes or is doubled.  The disk
   bounds, which are part of Inv, hold all along.
   */
  lemma {:induction false} Conservation(n: Node, es: seq<Event>, n': Node)
    requires Accounted(n) && Runs(n, es, n')
    ensures Accounted(n')
    decreases |es|
  {
    if es == [] {
    } else {
      StepAccounts(n, es[0]);
      Conservation(Next(n, es[0]), es[1..], n');
    }
  }

  /** No step changes the limits. */
  lemma StepKeepsLimits(n: Node, e: Event)
    requires n.q.open && n.q.segs != [] && Enabled(n, e)
    ensures Next(n, e).q.maxSize == n.q.maxSize && Next(n, e).q.maxSegmentSize == n.q.maxSegmentSize
  {
    hide Usage, UnreadAll, OldPrefix, ByName, Reload, MaxId;
  }

  lemma {:induction false} RunKeepsLimits(n: Node, es: seq<Event>, n': Node)
    requires Runs(n, es, n')
    ensures n'.q.maxSize == n.q.maxSize && n'.q.maxSegmentSize == n.q.maxSegmentSize
    decreases |es|
  {
    if es == [] {
    } else {
      StepKeepsLimits(n, es[0]);
      RunKeepsLimits(Next(n, es[0]), es[1..], n');
    }
  }

  /** Over every run from an empty directory, no segment and no queue outgrows its limit by more than the framing. */
  lemma DiskBounds(maxSegmentSize: int, maxSize: int, now: int, es: seq<Event>, n: Node, i: nat)
    requires maxSegmentSize >= 0 && maxSize >= 0 && Runs(Start(maxSegmentSize, maxSize, now), es, n)
    ensures Usage(n.q.segs) <= maxSize + 16
    ensures i < |n.q.segs| ==> Size(n.q.segs[i]) <= maxSegmentSize + 8
  {
    StartInv(maxSegmentSize, maxSize, now);
    Conservation(Start(maxSegmentSize, maxSize, now), es, n);
    RunKeepsLimits(Start(maxSegmentSize, maxSize, now), es, n);
    if i < |n.q.segs| {
      assert SegBounded(n.q.segs[i], n.q.maxSegmentSize);
    }
  }

  /** The run never reopens a queue whose ids change width. */
  ghost predicate Orderly(n: Node, es: seq<Event>)
    decreases |es|
  {
    || es == []
    || (n.q.open && n.q.segs != [] && Enabled(n, es[0]) && KeepsOrder(n, es[0]) && Orderly(Next(n, es[0]), es[1..]))
  }

  /** First in, first out: unless ids change width at a reopening, blocks leave in the order of acceptance. */
  lemma {:induction false} ConservationInOrder(n: Node, es: seq<Event>, n': Node)
    requires InOrder(n) && Runs(n, es, n') && Orderly(n, es)
    ensures InOrder(n')
    decreases |es|
  {
    if es == [] {
    } else {
      StepAccounts(n, es[0]);
      ConservationInOrder(Next(n, es[0]), es[1..], n');
    }
  }

  predicate WasSent(f: Fate) {
    f.Delivered? || f.Skipped?
  }

  lemma StepWithoutPurge(n: Node, e: Event)
    requires Accounted(n) && Enabled(n, e) && !e.Purge? && !n.q.stale
    ensures !Next(n, e).q.stale
    ensures n.gone <= Next(n, e).gone
    ensures forall i :: |n.gone| <= i < |Next(n, e).gone| ==> WasSent(Next(n, e).gone[i])
  {
    hide Append, Current, Advance, QueueReopen.Reopen, Bounded, CachesRight, Blocks, Ordered, UnreadAll, DistinctIds;
    match e
    case Write(b, now) => AppendRefines(n.q, b, now);
    case Read => CurrentRefines(n.q);
    case Fail =>
    case Finish(_, now) => AdvanceRefines(n.q, now);
    case Reopen(now) => ReopenKeeps(n.q, now);
  }

  /** Without a purge no block is dropped: whatever left the queue was delivered or unparseable. */
  lemma {:induction false} NothingLostWithoutPurge(n: Node, es: seq<Event>, n': Node)
    requires Accounted(n) && Runs(n, es, n') && !n.q.stale
    requires forall i :: 0 <= i < |es| ==> !es[i].Purge?
    ensures !n'.q.stale && n.gone <= n'.gone
    ensures forall i :: |n.gone| <= i < |n'.gone| ==> WasSent(n'.gone[i])
    decreases |es|
  {
    hide Next, Enabled, Accounted;
    if es == [] {
    } else {
      StepWithoutPurge(n, es[0]);
      StepAccounts(n, es[0]);
      NothingLostWithoutPurge(Next(n, es[0]), es[1..], n');
    }
  }

  /** While the tail is stale, a Write that is answered Ok stores nothing; only a reopening ends this. */
  lemma StaleLoses(n: Node, e: Event)
    requires Accounted(n) && Enabled(n, e) && n.q.stale && !e.Reopen?
    ensures Next(n, e).q.stale && Contents(Next(n, e).q) == []
    ensures if e.Write? && Next(n, e).accepted != n.accepted
            then Next(n, e).accepted == n.accepted + [e.b] && Next(n, e).gone == n.gone + [Lost(e.b)]
            else Next(n, e).accepted == n.accepted && Next(n, e).gone == n.gone
  {
    hide Append, Current, Advance, QueueModel.Purge, Bounded, CachesRight, Blocks, Ordered, UnreadAll, DistinctIds;
    NothingUnread(n.q.segs);
    match e
    case Write(b, now) => AppendRefines(n.q, b, now);
    case Read => CurrentRefines(n.q);
    case Fail =>
    case Finish(_, now) => AdvanceRefines(n.q, now);
    case Purge(cutoff, now, spins) => PurgeRefines(n.q, cutoff, now, spins, OldPrefix(n.q.segs, cutoff));
  }

  function LostAll(bs: seq<Block>): seq<Fate> {
    if bs == [] then [] else LostAll(bs[..|bs| - 1]) + [Lost(bs[|bs| - 1])]
  }

  lemma StaleIsEmpty(n: Node)
    requires Accounted(n) && n.q.stale
    ensures Contents(n.q) == []
  {
    NothingUnread(n.q.segs);
  }

  /** Until the queue is reopened, a stale tail loses every accepted block, and nothing else leaves. */
  lemma {:induction false} StaleRunLoses(n: Node, es: seq<Event>, n': Node) returns (bs: seq<Block>)
    requires Accounted(n) && n.q.stale && Runs(n, es, n')
    requires forall i :: 0 <= i < |es| ==> !es[i].Reopen?
    ensures n'.q.stale && Contents(n'.q) == []
    ensures n'.accepted == n.accepted + bs && n'.gone == n.gone + LostAll(bs)
    decreases |es|
  {
    hide Next, Enabled, Accounted, Contents;
    bs := [];
    if es == [] {
      StaleIsEmpty(n);
    } else {
      var last := es[|es| - 1];
      var m := RunsLast(n, es, n');
      bs := StaleRunLoses(n, es[..|es| - 1], m);
      Conservation(n, es[..|es| - 1], m);
      StaleLoses(m, last);
      if n'.accepted != m.accepted {
        assert (bs + [last.b])[..|bs|] == bs;
        bs := bs + [last.b];
      }
    }
  }

  /** The state before the last step of a run. */
  lemma {:induction false} RunsLast(n: Node, es: seq<Event>, n': Node) returns (m: Node)
    requires es != [] && Runs(n, es, n')
    ensures Runs(n, es[..|es| - 1], m)
    ensures m.q.open && m.q.segs != [] && Enabled(m, es[|es| - 1]) && n' == Next(m, es[|es| - 1])
    decreases |es|
  {
    hide Next, Enabled;
    if |es| == 1 {
      m := n;
    } else {
      m := RunsLast(Next(n, es[0]), es[1..], n');
      assert es[1..][..|es| - 2] == es[..|es| - 1][1..];
    }
  }

  lemma StartPurged(maxSegmentSize: int, maxSize: int, cutoff: int, now: int)
    requires 0 < cutoff
    ensures var n := Start(maxSegmentSize, maxSize, 0);
            && n.q.open && n.q.segs != []
            && Next(n, Event.Purge(cutoff, now, 0))
            == Node(State(true, [Fresh(2, now)], true, maxSegmentSize, maxSize), Idle, [], [])
  {
    var q := Start(maxSegmentSize, maxSize, 0).q;
    var s := Fresh(1, 0);
    assert q.segs == [s];
    assert OldPrefix([s], cutoff) == 1 + OldPrefix([s][1..], cutoff);
    assert [s][..1] == [s];
    UnreadOne(s);
  }

  lemma StaleWrite(n: Node, b: Block, now: int)
    requires n.q.open && n.q.stale && |n.q.segs| == 1 && n.q.segs[0].blocks == [] && b != [] && 8 + |b| <= n.q.maxSize
    ensures Next(n, Write(b, now)) == n.(accepted := n.accepted + [b], gone := n.gone + [Lost(b)])
  {
    assert n.q.segs == [n.q.segs[0]];
    UsageOne(n.q.segs[0]);
  }

  /** For example: after a purge of an idle queue, the next write is accepted and lost. */
  lemma PurgeThenWriteIsLost(maxSegmentSize: int, maxSize: int, cutoff: int, now: int, b: Block) returns (n: Node)
    requires b != [] && 8 + |b| <= maxSize && 0 < cutoff <= now
    ensures Runs(Start(maxSegmentSize, maxSize, 0), [Event.Purge(cutoff, now, 0), Write(b, now)], n)
    ensures n.accepted == [b] && n.gone == [Lost(b)] && Contents(n.q) == []
  {
    var n0 := Start(maxSegmentSize, maxSize, 0);
    StartPurged(maxSegmentSize, maxSize, cutoff, now);
    assert n0.sender == Idle;
    var n1 := Next(n0, Event.Purge(cutoff, now, 0));
    StaleWrite(n1, b, now);
    UnreadOne(n1.q.segs[0]);
    hide Next, Start;
    n := Next(n1, Write(b, now));
    RunsTwo(n0, Event.Purge(cutoff, now, 0), Write(b, now), [], n);
    assert [Event.Purge(cutoff, now, 0), Write(b, now)] + [] == [Event.Purge(cutoff, now, 0), Write(b, now)];
  }

  lemma RunsTwo(n: Node, e: Event, f: Event, es: seq<Event>, n': Node)
    requires n.q.open && n.q.segs != [] && Enabled(n, e)
    requires var m := Next(n, e); m.q.open && m.q.segs != [] && Enabled(m, f) && Runs(Next(m, f), es, n')
    ensures Runs(n, [e, f] + es, n')
  {
    hide Next, Enabled;
    var all := [e, f] + es;
    assert all[1..] == [f] + es && all[1..][1..] == es;
    assert Runs(Next(n, e), all[1..], n');
  }
}
