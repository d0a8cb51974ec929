/**
 The hinted-handoff queue as a value: the segments with their blocks and head
 positions, without bytes and without objects.  The class in Queue.dfy is
 proved to compute these functions; the lemmas here say what they mean for the
 one abstract queue of unread blocks.
 */
module QueueModel {
  import opened SegmentFormat
  import opened SegmentNames

  // ---------------------------------------------------------------- data

  /** One segment: its blocks, the number of blocks already read, the cached length of the head block. */
  datatype Seg = Seg(id: nat, blocks: seq<Block>, head: nat, cached: int, modified: int)

  /**
   The whole queue.  While it is closed, segs lists what is on disk.  When stale
   is set, the tail pointer refers to a segment that was closed and removed.
   */
  datatype State = State(open: bool, segs: seq<Seg>, stale: bool, maxSegmentSize: int, maxSize: int)

  predicate Drained(s: Seg) {
    s.head >= |s.blocks|
  }

  function Unread(s: Seg): seq<Block> {
    if s.head <= |s.blocks| then s.blocks[s.head..] else []
  }

  function Size(s: Seg): nat {
    Len(s.blocks) + FOOTER_SIZE
  }

  /** The abstract queue: every block not yet read, head segment first. */
  function UnreadAll(segs: seq<Seg>): seq<Block> {
    if segs == [] then [] else Unread(segs[0]) + UnreadAll(segs[1..])
  }

  function Contents(q: State): seq<Block> {
    UnreadAll(q.segs)
  }

  function Usage(segs: seq<Seg>): nat {
    if segs == [] then 0 else Size(segs[0]) + Usage(segs[1..])
  }

  function Ids(segs: seq<Seg>): set<nat> {
    if segs == [] then {} else {segs[0].id} + Ids(segs[1..])
  }

  function MaxId(segs: seq<Seg>): nat {
    if segs == [] then 0
    else if segs[0].id > MaxId(segs[1..]) then segs[0].id else MaxId(segs[1..])
  }

  function Fresh(id: nat, now: int): Seg {
    Seg(id, [], 0, 0, now)
  }

  // ---------------------------------------------------------------- operations

  function AddSegment(q: State, now: int): State {
    q.(segs := q.segs + [Fresh(MaxId(q.segs) + 1, now)])
  }

  function TrimHead(q: State): State {
    if |q.segs| > 1 then q.(segs := q.segs[1..]) else q
  }

  function AppendSeg(s: Seg, b: Block, now: int): Seg {
    s.(blocks := s.blocks + [b], cached := if s.cached == 0 then |b| else s.cached, modified := now)
  }

  predicate SegmentFull(q: State, s: Seg, b: Block) {
    Size(s) + |b| > q.maxSegmentSize
  }

  function AppendTail(q: State, b: Block, now: int): State
    requires q.segs != []
  {
    var last := |q.segs| - 1;
    q.(segs := q.segs[..last] + [AppendSeg(q.segs[last], b, now)])
  }

  function Append(q: State, b: Block, now: int): (r: (State, Status))
    requires q.open ==> q.segs != []
  {
    if !q.open then (q, ErrNotOpen)
    else if Usage(q.segs) + |b| > q.maxSize then (q, ErrQueueFull)
    else if q.stale then (q, Ok)
    else if !SegmentFull(q, q.segs[|q.segs| - 1], b) then (AppendTail(q, b, now), Ok)
    else
      var q' := AddSegment(q, now);
      if SegmentFull(q', q'.segs[|q'.segs| - 1], b) then (q', ErrSegmentFull)
      else (AppendTail(q', b, now), Ok)
  }

  function Refreshed(s: Seg): Seg {
    s.(cached := HeadSize(s.blocks, s.head))
  }

  /** What Current answers, and the state it leaves: reading refreshes the cached length. */
  function Current(q: State): (r: (State, Status, Block))
    requires q.open ==> q.segs != []
  {
    if !q.open then (q, ErrNotOpen, [])
    else
      var s := q.segs[0];
      if Drained(s) then (q, EOF, [])
      else
        var q' := q.(segs := [Refreshed(s)] + q.segs[1..]);
        if |s.blocks[s.head]| > q.maxSegmentSize then (q', ErrRecordSize, [])
        else (q', Ok, s.blocks[s.head])
  }

  function AdvanceSeg(s: Seg, now: int): Seg {
    if Drained(s) then s.(cached := 0) else Refreshed(s.(head := s.head + 1, modified := now))
  }

  function Advance(q: State, now: int): (r: (State, Status))
    requires q.open ==> q.segs != []
  {
    if !q.open then (q, ErrNotOpen)
    else
      var s := AdvanceSeg(q.segs[0], now);
      var q' := q.(segs := [s] + q.segs[1..]);
      (if Drained(s) then TrimHead(q') else q', Ok)
  }

  function Close(q: State): State {
    q.(open := false, stale := false)
  }

  function InsertByName(s: Seg, segs: seq<Seg>): (r: seq<Seg>) {
    if segs == [] || Earlier(s.id, segs[0].id) then [s] + segs
    else [segs[0]] + InsertByName(s, segs[1..])
  }

  /** The segments in the order of a directory listing. */
  function ByName(segs: seq<Seg>): (r: seq<Seg>) {
    if segs == [] then [] else InsertByName(segs[0], ByName(segs[1..]))
  }

  function Reload(segs: seq<Seg>): (r: seq<Seg>)
    ensures |r| == |segs|
    ensures forall i :: 0 <= i < |r| ==> r[i] == Refreshed(segs[i])
  {
    if segs == [] then [] else [Refreshed(segs[0])] + Reload(segs[1..])
  }

  /** The segments that Open finds on disk, in the order it finds them. */
  function Load(q: State, now: int): State {
    var q' := q.(open := true, stale := false, segs := ByName(Reload(q.segs)));
    if q'.segs == [] then AddSegment(q', now) else q'
  }

  function Open(q: State, now: int): State {
    var q' := Load(q, now);
    if Drained(q'.segs[0]) then TrimHead(q') else q'
  }

  predicate Old(s: Seg, cutoff: int) {
    s.modified < cutoff
  }

  /** One pass of the purge loop. */
  function PurgePass(q: State, now: int): State
    requires q.segs != []
  {
    if |q.segs| == 1 then TrimHead(AddSegment(q, now)).(stale := true) else TrimHead(q)
  }

  function OldPrefix(segs: seq<Seg>, cutoff: int): (n: nat)
    ensures n <= |segs|
  {
    if segs == [] || !Old(segs[0], cutoff) then 0 else 1 + OldPrefix(segs[1..], cutoff)
  }

  /**
   What is left of the queue after a purge: the longest prefix of old segments is
   gone.  When that is all of them, one new segment is left, made at time now
   after so many others that were themselves too old.
   */
  function Purge(q: State, cutoff: int, now: int, spins: nat): State
    requires q.open ==> q.segs != []
  {
    var n := OldPrefix(q.segs, cutoff);
    if !q.open then q
    else if n < |q.segs| then q.(segs := q.segs[n..])
    else q.(segs := [Fresh(q.segs[|q.segs| - 1].id + 1 + spins, now)], stale := true)
  }
}
