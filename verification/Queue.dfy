/**
 The disk-backed queue: a directory of segment files and the segments opened
 on them.  Every method is proved to compute the function of the same name in
 QueueModel on the abstract state.
 */
module Queues {
  import opened BigEndian
  import opened SegmentFormat
  import opened Segments
  import M = QueueModel
  import P = QueueProofs
  import G = QueuePurge
  import R = QueueReopen
  import opened Times

  const DEFAULT_SEGMENT_SIZE := 10 * 1024 * 1024

  /** The file holds what the model says of a segment. */
  ghost predicate OnDisk(f: File, s: M.Seg)
    reads f
  {
    f.modified == s.modified && IsImage(f.data, s.blocks, s.head)
  }

  /** An open segment shows the state that the model says. */
  ghost predicate Shows(t: Segment, s: M.Seg, maxSize: int)
    reads t, t.file
  {
    && t.Formed()
    && t.id == s.id && t.maxSize == maxSize
    && t.blocks == s.blocks && t.head == s.head && t.currentSize == s.cached
    && t.file.modified == s.modified
  }

  method OpenSegment(id: nat, f: File, maxSize: int, now: int, ghost s: M.Seg) returns (t: Segment)
    requires maxSize + 8 < TWO_63 && id == s.id && OnDisk(f, s) && P.CacheRight(s)
    modifies f
    ensures fresh(t) && t.id == id && t.file == f && Shows(t, s, maxSize)
    ensures OnDisk(f, s)
  {
    t := new Segment(id, f, maxSize, now, s.blocks, s.head);
  }

  method OpenAll(
    ids: seq<nat>, files: seq<File>, maxSize: int, now: int, ghost segs: seq<M.Seg>)
    returns (ts: seq<Segment>)
    requires maxSize + 8 < TWO_63 && |ids| == |files| == |segs|
    requires forall i :: 0 <= i < |ids| ==> ids[i] == segs[i].id && P.CacheRight(segs[i]) && OnDisk(files[i], segs[i])
    requires forall i, j :: 0 <= i < j < |files| ==> files[i] != files[j]
    modifies files
    ensures |ts| == |ids|
    ensures forall i :: 0 <= i < |ts| ==> fresh(ts[i]) && ts[i].id == ids[i] && ts[i].file == files[i]
    ensures forall i :: 0 <= i < |ts| ==> Shows(ts[i], segs[i], maxSize)
  {
    hide OnDisk, Shows;
    ts := [];
    for k := 0 to |ids|
      invariant |ts| == k
      invariant forall i :: 0 <= i < |ids| ==> OnDisk(files[i], segs[i])
      invariant forall i :: 0 <= i < k ==> fresh(ts[i]) && ts[i].id == ids[i] && ts[i].file == files[i]
      invariant forall i :: 0 <= i < k ==> Shows(ts[i], segs[i], maxSize)
    {
      var t := OpenSegment(ids[k], files[k], maxSize, now, segs[k]);
      ts := ts + [t];
    }
  }

  function FilesOf(dir: map<nat, File>, ids: seq<nat>): (files: seq<File>)
    requires forall i :: 0 <= i < |ids| ==> ids[i] in dir
    ensures |files| == |ids| && forall i :: 0 <= i < |ids| ==> files[i] == dir[ids[i]]
  {
    seq(|ids|, i requires 0 <= i < |ids| => dir[ids[i]])
  }

  method AppendTo(t: Segment, b: Block, now: int, ghost s: M.Seg) returns (status: Status)
    requires t.file != null ==> Shows(t, s, t.maxSize)
    modifies t, t.file
    ensures t.file == old(t.file)
    ensures status == if t.file == null then ErrNotOpen else if M.Size(s) + |b| > t.maxSize then ErrSegmentFull else Ok
    ensures t.file != null ==> Shows(t, if status == Ok then M.AppendSeg(s, b, now) else s, t.maxSize)
  {
    status := t.Append(b, now);
  }

  method AdvanceIn(t: Segment, now: int, ghost s: M.Seg) returns (status: Status)
    requires Shows(t, s, t.maxSize) && P.CacheRight(s)
    modifies t, t.file
    ensures t.file == old(t.file)
    ensures Shows(t, M.AdvanceSeg(s, now), t.maxSize) && M.AdvanceSeg(s, now).id == s.id
    ensures status == if M.Drained(M.AdvanceSeg(s, now)) then EOF else Ok
  {
    status := t.Advance(now);
  }

  method CurrentIn(t: Segment, ghost s: M.Seg) returns (status: Status, b: Block)
    requires Shows(t, s, t.maxSize)
    modifies t
    ensures t.file == old(t.file)
    ensures Shows(t, if M.Drained(s) then s else M.Refreshed(s), t.maxSize)
    ensures status == if M.Drained(s) then EOF else if |s.blocks[s.head]| > t.maxSize then ErrRecordSize else Ok
    ensures b == if status == Ok then s.blocks[s.head] else []
  {
    status, b := t.Current();
  }

  class Queue {
    const maxSegmentSize: int
    const maxSize: int

    var dir: map<nat, File>        // the segment files, by id
    var segments: seq<Segment>
    var head: Segment?
    var tail: Segment?

    ghost var model: M.State
    ghost var Repr: set<object>

    /** The directory holds one file for every segment of the model and nothing else. */
    ghost predicate ValidDir()
      reads this
    {
      && this in Repr
      && maxSegmentSize + 8 < TWO_63
      && model.maxSegmentSize == maxSegmentSize && model.maxSize == maxSize
      && P.DistinctIds(model.segs)
      && dir.Keys == M.Ids(model.segs)
      && (forall n :: n in dir ==> dir[n] in Repr && dir[n].name == n)
    }

    ghost predicate ValidClosed()
      reads this, Repr
    {
      && ValidDir()
      && (forall i :: 0 <= i < |model.segs| ==> model.segs[i].id in dir && OnDisk(dir[model.segs[i].id], model.segs[i]))
    }

    /** Segment i is open on its own file. */
    ghost predicate Attached(t: Segment)
      reads this, Repr
    {
      t in Repr && t.id in dir && t.file == dir[t.id]
    }

    ghost predicate ValidSegments()
      reads this, Repr
    {
      && ValidDir()
      && |segments| == |model.segs|
      && (forall i :: 0 <= i < |segments| ==> Attached(segments[i]))
      && (forall i :: 0 <= i < |segments| ==> Shows(segments[i], model.segs[i], maxSegmentSize))
    }

    ghost predicate ValidEnds()
      reads this, Repr
    {
      && segments != []
      && head == segments[0]
      && tail != null && tail in Repr
      && (if model.stale then tail !in segments && tail.file == null
          else tail == segments[|segments| - 1])
    }

    ghost predicate Valid()
      reads this, Repr
    {
      if model.open then ValidSegments() && ValidEnds()
      else ValidClosed() && segments == [] && head == null && tail == null
    }

    /** A queue on a directory that holds the given segments, or none; it is not yet open. */
    constructor (dir: map<nat, File>, maxSize: int, ghost segs: seq<M.Seg>)
      requires P.DistinctIds(segs) && dir.Keys == M.Ids(segs) && forall n :: n in dir ==> dir[n].name == n
      requires forall i :: 0 <= i < |segs| ==> segs[i].id in dir && OnDisk(dir[segs[i].id], segs[i])
      ensures Valid() && fresh(Repr - dir.Values)
      ensures model == M.State(false, segs, false, 10 * 1024 * 1024, maxSize)
    {
      this.dir := dir;
      this.maxSize := maxSize;
      maxSegmentSize := DEFAULT_SEGMENT_SIZE;
      segments := [];
      head := null;
      tail := null;
      model := M.State(false, segs, false, DEFAULT_SEGMENT_SIZE, maxSize);
      Repr := {this} + dir.Values;
    }

    /** The bytes that all segments take on disk. */
    method DiskUsage() returns (n: int)
      requires ValidSegments()
      ensures n == M.Usage(model.segs)
    {
      n := 0;
      for i := 0 to |segments|
        invariant n == M.Usage(model.segs[..i])
      {
        assert Shows(segments[i], model.segs[i], maxSegmentSize);
        n := n + segments[i].size;
        P.UsageConcat(model.segs[..i], [model.segs[i]]);
        P.UsageOne(model.segs[i]);
        assert model.segs[..i + 1] == model.segs[..i] + [model.segs[i]];
      }
      assert model.segs[..|segments|] == model.segs;
    }

    /** The first free segment id, one more than the largest in the directory. */
    method NextSegmentID() returns (n: nat)
      requires ValidDir()
      ensures n == M.MaxId(model.segs) + 1
    {
      var max := 0;
      var left := dir.Keys;
      while left != {}
        invariant left <= dir.Keys
        invariant max == 0 || max in dir.Keys
        invariant forall id :: id in dir.Keys && id !in left ==> id <= max
        decreases left
      {
        var id :| id in left;
        if id > max {
          max := id;
        }
        left := left - {id};
      }
      P.MaxIdOfIds(model.segs, max);
      n := max + 1;
    }

    /** Puts an opened segment behind the others. */
    method Attach(t: Segment, f: File, ghost s: M.Seg)
      requires ValidSegments()
      requires t !in Repr && f !in Repr && t.id == s.id && t.file == f && Shows(t, s, maxSegmentSize)
      requires s.id !in dir && f.name == s.id
      requires P.DistinctIds(model.segs + [s]) && M.Ids(model.segs + [s]) == M.Ids(model.segs) + {s.id}
      modifies this`dir, this`segments, this`model, this`Repr
      ensures ValidSegments()
      ensures Repr == old(Repr) + {t, f}
      ensures segments == old(segments) + [t]
      ensures model == old(model).(segs := old(model.segs) + [s])
    {
      hide Shows, M.Ids;
      dir := dir[t.id := f];
      segments := segments + [t];
      model := model.(segs := model.segs + [s]);
      Repr := Repr + {t, f};
    }

    /** Creates the next segment file and opens it behind the others. */
    method AddSegment(now: int) returns (t: Segment)
      requires ValidSegments()
      modifies this`dir, this`segments, this`model, this`Repr
      ensures ValidSegments() && fresh(t) && fresh(t.file)
      ensures Repr == old(Repr) + {t, t.file}
      ensures segments == old(segments) + [t]
      ensures model == M.AddSegment(old(model), now)
    {
      hide P.DistinctIds, M.Ids, M.MaxId, Segment.Formed;
      var id := NextSegmentID();
      P.AddSegmentIds(model, now);
      var f := new File(id);
      t := new Segment(id, f, maxSegmentSize, now, [], 0);
      Attach(t, f, M.Fresh(id, now));
    }
  
    /** Two open segments are different objects on different files. */
    lemma Apart(k: nat)
      requires ValidSegments() && k < |segments|
      ensures segments[k] in Repr && segments[k].file != null && segments[k].file in Repr
      ensures segments[k].id == model.segs[k].id && segments[k].maxSize == maxSegmentSize
      ensures forall i :: 0 <= i < |segments| && i != k ==>
          segments[i] != segments[k] && segments[i].file != segments[k].file
    {
      forall i | 0 <= i < |segments| && i != k
        ensures segments[i] != segments[k] && segments[i].file != segments[k].file
      {
        assert segments[i].id == model.segs[i].id;
      }
    }

    /** Adopts the state that the segments show. */
    ghost method Adopt(q: M.State)
      requires ValidDir()
      requires q.maxSegmentSize == maxSegmentSize && q.maxSize == maxSize
      requires |q.segs| == |model.segs| == |segments|
      requires forall i :: 0 <= i < |q.segs| ==> q.segs[i].id == model.segs[i].id
      requires forall i :: 0 <= i < |segments| ==>
          Attached(segments[i]) && Shows(segments[i], q.segs[i], maxSegmentSize)
      modifies this`model
      ensures ValidSegments() && model == q
    {
      hide Shows, P.DistinctIds, M.Ids;
      P.SameIds(model.segs, q.segs);
      model := q;
    }

    /** The append of the tail segment. */
    method TailAppend(b: Block, now: int) returns (status: Status)
      requires ValidSegments() && ValidEnds()
      modifies tail, tail.file, this`model
      ensures ValidSegments() && ValidEnds()
      ensures status == if model.stale then ErrNotOpen
                        else if M.SegmentFull(old(model), old(model.segs[|model.segs| - 1]), b) then ErrSegmentFull
                        else Ok
      ensures model == if status == Ok then M.AppendTail(old(model), b, now) else old(model)
    {
      hide Shows, Segment.Formed, M.Size, P.DistinctIds, M.Ids;
      ghost var last := |segments| - 1;
      Apart(last);
      status := AppendTo(tail, b, now, model.segs[last]);
      if status == Ok {
        ghost var q := M.AppendTail(model, b, now);
        assert forall i :: 0 <= i < last ==> q.segs[i] == model.segs[i];
        assert Shows(segments[last], q.segs[last], maxSegmentSize);
        Adopt(q);
      }
    }
  
    /** Removes the head segment and its file, unless it is the only one. */
    method TrimHead()
      requires ValidSegments() && segments != [] && head == segments[0]
      modifies this`segments, this`dir, this`head, this`model, head
      ensures ValidSegments() && segments != [] && head == segments[0]
      ensures model == M.TrimHead(old(model))
      ensures segments == if |old(segments)| > 1 then old(segments)[1..] else old(segments)
      ensures |old(segments)| > 1 ==> old(head).file == null && old(head) !in segments
    {
      hide Shows, Segment.Formed, P.DistinctIds, M.Ids;
      if |segments| > 1 {
        Apart(0);
        P.IdsRest(model.segs);
        segments := segments[1..];
        head.Close();
        dir := dir - {head.id};
        head := segments[0];
        model := M.TrimHead(model);
        assert forall i :: 0 <= i < |segments| ==>
            segments[i] == old(segments)[i + 1] && model.segs[i] == old(model).segs[i + 1];
      }
    }

    method SetTail(t: Segment)
      requires ValidSegments() && segments != [] && head == segments[0] && !model.stale && t == segments[|segments| - 1]
      modifies this`tail
      ensures ValidSegments() && ValidEnds() && tail == t
    {
      hide Shows, P.DistinctIds, M.Ids;
      tail := t;
    }

    lemma Owned()
      requires ValidSegments() && ValidEnds()
      ensures {this, head, tail} <= Repr && (tail.file != null ==> tail.file in Repr)
      ensures head.file != null && head.file in Repr && head.maxSize == maxSegmentSize
      ensures |segments| == |model.segs| && head.file.modified == model.segs[0].modified
      ensures model.maxSize == maxSize && model.maxSegmentSize == maxSegmentSize
    {
      Apart(0);
      assert Shows(segments[0], model.segs[0], maxSegmentSize);
      Apart(|segments| - 1);
    }

    method Append(b: Block, now: int) returns (status: Status)
      requires Valid()
      modifies Repr
      ensures Valid() && fresh(Repr - old(Repr))
      ensures (model, status) == M.Append(old(model), b, now)
    {
      hide ValidSegments, ValidClosed;
      if tail == null {
        return ErrNotOpen;
      }
      Owned();
      var usage := DiskUsage();
      if usage + |b| > maxSize {
        return ErrQueueFull;
      }
      status := TailAppend(b, now);
      if status == ErrSegmentFull {
        var t := AddSegment(now);
        SetTail(t);
        status := TailAppend(b, now);
        return status;
      }
      return Ok;
    }
  
    method Current() returns (status: Status, b: Block)
      requires Valid()
      modifies Repr
      ensures Valid() && Repr == old(Repr)
      ensures (model, status, b) == M.Current(old(model))
    {
      hide ValidSegments, ValidClosed;
      if head == null {
        return ErrNotOpen, [];
      }
      Owned();
      status, b := HeadCurrent();
    }

    /** The advance of the head segment. */
    method HeadAdvance(now: int) returns (status: Status)
      requires ValidSegments() && ValidEnds() && P.CacheRight(model.segs[0])
      modifies head, head.file, this`model
      ensures ValidSegments() && ValidEnds()
      ensures model == P.Stepped(old(model), now)
      ensures status == if M.Drained(model.segs[0]) then EOF else Ok
    {
      hide Shows, Segment.Formed, P.DistinctIds, M.Ids, M.AdvanceSeg;
      Apart(0);
      ghost var q := P.Stepped(model, now);
      assert q.segs == model.segs[0 := M.AdvanceSeg(model.segs[0], now)];
      hide P.Stepped, M.Drained;
      status := AdvanceIn(head, now, model.segs[0]);
      Adopt(q);
    }

    /** The head must not have a wrong length cached; Segment.Append says when that can happen. */
    method Advance(now: int) returns (status: Status)
      requires Valid()
      requires model.open ==> P.CacheRight(model.segs[0])
      modifies Repr
      ensures Valid() && Repr == old(Repr)
      ensures (model, status) == M.Advance(old(model), now)
    {
      hide ValidSegments, ValidClosed, M.AdvanceSeg;
      if head == null {
        return ErrNotOpen;
      }
      Owned();
      var r := HeadAdvance(now);
      Owned();
      if r == EOF {
        TrimHead();
      }
      return Ok;
    }

    lemma OpenOnDisk()
      requires ValidSegments()
      ensures ValidClosed()
    {
      forall i | 0 <= i < |model.segs|
        ensures model.segs[i].id in dir && OnDisk(dir[model.segs[i].id], model.segs[i])
      {
        assert Attached(segments[i]) && Shows(segments[i], model.segs[i], maxSegmentSize);
      }
    }

    /** Closes the handles of all segments; the files stay as they are. */
    method CloseSegments()
      requires Valid()
      modifies segments
      ensures ValidClosed()
    {
      if model.open {
        OpenOnDisk();
      }
      hide Shows, OnDisk, P.DistinctIds, M.Ids;
      for i := 0 to |segments|
        invariant ValidClosed()
        invariant forall j :: i <= j < |segments| ==> segments[j].file == old(segments[j].file)
      {
        segments[i].Close();
      }
    }

    method Close()
      requires Valid()
      modifies Repr
      ensures Valid() && Repr == old(Repr)
      ensures model == M.Close(old(model))
    {
      hide Shows, OnDisk, P.DistinctIds, M.Ids;
      CloseSegments();
      head := null;
      tail := null;
      segments := [];
      model := M.Close(model);
    }
  
    /** Marks that the tail pointer was left on a segment that is gone. */
    ghost method TailLost()
      requires ValidSegments() && segments != [] && head == segments[0]
      requires tail != null && tail in Repr && tail !in segments && tail.file == null
      modifies this`model
      ensures ValidSegments() && ValidEnds() && model == old(model).(stale := true)
    {
      hide Shows, P.DistinctIds, M.Ids;
      model := model.(stale := true);
    }

    /** One pass of the purge loop; the new segment does not become the tail. */
    method PurgePass(now: int)
      requires ValidSegments() && ValidEnds()
      modifies Repr
      ensures ValidSegments() && ValidEnds() && fresh(Repr - old(Repr))
      ensures model == M.PurgePass(old(model), now) && model.open == old(model.open) && model.segs != []
    {
      hide ValidSegments, M.MaxId;
      Owned();
      if |segments| == 1 {
        var t := AddSegment(now);
        TrimHead();
        TailLost();
      } else {
        TrimHead();
      }
    }

    /**
     Removes the segments last modified before the cutoff.  The clock is read once
     in every pass; the precondition is exactly when the loop ends.
     */
    method PurgeOlderThan(when: int, clock: nat -> int) returns (ghost last: nat)
      requires Valid()
      requires model.open ==> G.CanEnd(model, Truncate(when, SECOND), clock, 0)
      modifies Repr
      ensures Valid() && fresh(Repr - old(Repr))
      ensures !old(model.open) ==> model == old(model)
      ensures old(model.open) ==>
                && G.LastPass(old(model), Truncate(when, SECOND), clock, 0, last)
                && model == G.Outcome(old(model), Truncate(when, SECOND), clock, 0, last)
    {
      hide M.PurgePass, G.LastPass, G.Outcome, G.PassesLeft, ValidClosed, ValidSegments;
      last := 0;
      if |segments| == 0 {
        return;
      }
      Owned();
      var cutoff := Truncate(when, SECOND);
      last := G.HasLastPass(model, cutoff, clock, 0);
      var i := 0;
      while true
        invariant Valid() && model.open && model.segs != [] && fresh(Repr - old(Repr)) && i >= 0
        invariant G.LastPass(model, cutoff, clock, i, last)
        invariant G.Outcome(model, cutoff, clock, i, last) == G.Outcome(old(model), cutoff, clock, 0, last)
        decreases G.PassesLeft(model, cutoff, i, last)
      {
        Owned();
        if head.file.modified >= cutoff {
          G.RecentOutcome(model, cutoff, clock, i, last);
          return;
        }
        G.PurgePassProgress(model, cutoff, clock, i, last);
        PurgePass(clock(i));
        i := i + 1;
      }
    }

    lemma FoundOnDisk(k: nat)
      requires ValidClosed() && k < |R.Found(model)|
      ensures var s := R.Found(model)[k];
              s.id in dir && OnDisk(dir[s.id], s) && P.CacheRight(s)
    {
      hide R.Found;
      var i := R.FoundFrom(model, k);
    }

    /** Opens a segment on every file of the directory, in the order of the listing. */
    method LoadSegments(now: int) returns (loaded: seq<Segment>)
      requires ValidClosed()
      modifies dir.Values
      ensures |loaded| == |R.Found(model)|
      ensures M.Ids(R.Found(model)) == M.Ids(model.segs) && P.DistinctIds(R.Found(model))
      ensures forall i :: 0 <= i < |loaded| ==>
                fresh(loaded[i]) && loaded[i].id in dir && loaded[i].file == dir[loaded[i].id]
      ensures forall i :: 0 <= i < |loaded| ==> Shows(loaded[i], R.Found(model)[i], maxSegmentSize)
    {
      hide ValidClosed, R.Found, R.ListedIds, M.Ids, P.DistinctIds, OnDisk, Shows, P.CacheRight;
      var ids := ReadDir();
      Listing(ids);
      var files := FilesOf(dir, ids);
      loaded := OpenAll(ids, files, maxSegmentSize, now, R.Found(model));
    }

    /** A listing of the directory names the files of the segments that are found. */
    lemma Listing(ids: seq<nat>)
      requires ValidClosed() && R.ListedIds(ids) && forall x :: x in ids <==> x in dir.Keys
      ensures maxSegmentSize + 8 < TWO_63
      ensures M.Ids(R.Found(model)) == M.Ids(model.segs) && P.DistinctIds(R.Found(model))
      ensures |ids| == |R.Found(model)|
      ensures forall k :: 0 <= k < |ids| ==>
          ids[k] in dir && ids[k] == R.Found(model)[k].id && P.CacheRight(R.Found(model)[k])
      ensures forall k :: 0 <= k < |ids| ==> OnDisk(dir[ids[k]], R.Found(model)[k])
      ensures forall i, j :: 0 <= i < j < |ids| ==> dir[ids[i]] != dir[ids[j]]
    {
      hide R.Found, R.ListedIds, M.Ids, OnDisk, P.CacheRight;
      R.FoundIds(model, ids);
      forall k | 0 <= k < |ids|
        ensures ids[k] in dir && OnDisk(dir[ids[k]], R.Found(model)[k]) && P.CacheRight(R.Found(model)[k])
      {
        FoundOnDisk(k);
      }
    }

    /** The segment ids in the order of their file names. */
    method ReadDir() returns (ids: seq<nat>)
      ensures R.ListedIds(ids)
      ensures forall x :: x in ids <==> x in dir.Keys
    {
      ids := [];
      var left := dir.Keys;
      while left != {}
        invariant left <= dir.Keys
        invariant R.ListedIds(ids)
        invariant forall x :: x in ids <==> x in dir.Keys && x !in left
        decreases left
      {
        var id :| id in left;
        R.InsertIdListed(id, ids);
        forall x
          ensures x in R.InsertId(id, ids) <==> x == id || x in ids
        {
          R.InsertIdMember(id, ids, x);
        }
        ids := R.InsertId(id, ids);
        left := left - {id};
      }
    }

    /** Takes the loaded segments as those of the queue. */
    method Install(loaded: seq<Segment>, ghost q: M.State)
      requires ValidDir() && |loaded| == |q.segs|
      requires q.maxSegmentSize == maxSegmentSize && q.maxSize == maxSize
      requires M.Ids(q.segs) == M.Ids(model.segs) && P.DistinctIds(q.segs)
      requires forall i :: 0 <= i < |loaded| ==> loaded[i].id in dir && loaded[i].file == dir[loaded[i].id]
      requires forall i :: 0 <= i < |loaded| ==> Shows(loaded[i], q.segs[i], maxSegmentSize)
      modifies this`segments, this`model, this`Repr
      ensures ValidSegments() && segments == loaded && model == q
      ensures Repr == old(Repr) + (set t | t in loaded)
    {
      hide Shows, M.Ids, P.DistinctIds;
      segments := loaded;
      model := q;
      Repr := Repr + (set t | t in loaded);
    }

    method SetEnds()
      requires ValidSegments() && segments != [] && !model.stale
      modifies this`head, this`tail
      ensures ValidSegments() && ValidEnds()
    {
      hide Shows, M.Ids, P.DistinctIds;
      head := segments[0];
      tail := segments[|segments| - 1];
    }

    /** Reads at the head; nothing but the cached length can change. */
    method HeadCurrent() returns (status: Status, b: Block)
      requires ValidSegments() && ValidEnds() && model.open
      modifies head, this`model
      ensures ValidSegments() && ValidEnds()
      ensures (model, status, b) == M.Current(old(model))
    {
      hide Shows, Segment.Formed, P.DistinctIds, M.Ids;
      Apart(0);
      ghost var s := model.segs[0];
      ghost var s' := if M.Drained(s) then s else M.Refreshed(s);
      status, b := CurrentIn(head, s);
      ghost var q := model.(segs := model.segs[0 := s']);
      assert q == M.Current(model).0 by {
        assert [s'] + model.segs[1..] == model.segs[0 := s'];
        assert model.segs == model.segs[0 := s];
      }
      Adopt(q);
    }

    /** The segments found on disk, or one new segment when there are none. */
    method LoadAll(now: int)
      requires ValidClosed()
      modifies dir.Values, this`dir, this`segments, this`model, this`Repr
      ensures ValidSegments() && Repr >= old(Repr) && fresh(Repr - old(Repr))
      ensures model == M.Load(old(model), now) && |segments| == |model.segs|
    {
      hide ValidSegments, M.Ids, P.DistinctIds, Shows, M.MaxId;
      var loaded := LoadSegments(now);
      Install(loaded, model.(open := true, stale := false, segs := R.Found(model)));
      if |segments| == 0 {
        var t := AddSegment(now);
      }
    }

    /** Loads the directory and points head and tail at the first and the last segment. */
    method StartLoading(now: int)
      requires Valid()
      modifies Repr
      ensures ValidSegments() && ValidEnds() && Repr >= old(Repr) && fresh(Repr - old(Repr))
      ensures model == M.Load(old(model), now)
    {
      if model.open {
        OpenOnDisk();
      }
      R.LoadedHead(model, now);
      assert this in Repr && dir.Values <= Repr;
      hide ValidSegments, ValidClosed, ValidDir, M.Load, M.Current, P.DistinctIds;
      LoadAll(now);
      SetEnds();
    }

    /** Trims the head when it has nothing left to read. */
    method SkipDrainedHead()
      requires ValidSegments() && ValidEnds() && model.open
      modifies head, this
      ensures ValidSegments() && ValidEnds() && Repr == old(Repr)
      ensures var c := M.Current(old(model));
              model == if c.1 == EOF then M.TrimHead(c.0) else c.0
    {
      hide ValidSegments;
      var status, b := HeadCurrent();
      if status == EOF {
        TrimHead();
      }
    }

    method Open(now: int)
      requires Valid()
      modifies Repr
      ensures Valid() && fresh(Repr - old(Repr))
      ensures model == M.Open(old(model), now)
    {
      assert P.DistinctIds(model.segs);
      R.LoadedHead(model, now);
      hide ValidSegments, ValidClosed, M.Load, M.Current, P.DistinctIds;
      StartLoading(now);
      Owned();
      SkipDrainedHead();
    }
  }
}
