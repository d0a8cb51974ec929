/** The node processor around its queue: what writers and the sender call. */
module NodeProcessors {
  import opened BigEndian
  import opened SegmentFormat
  import opened Queues
  import opened Handoff
  import opened Times
  import M = QueueModel
  import P = QueueProofs
  import G = QueuePurge
  import R = QueueReopen

  /** A write request: the shard and the points. */
  datatype WriteRequest = WriteRequest(shardID: nat, points: seq<seq<byte>>)

  function Marshalled(ws: seq<WriteRequest>): (bs: seq<Block>)
    ensures |bs| == |ws| && forall i :: 0 <= i < |bs| ==> bs[i] == PutUint64(ws[i].shardID) + Lines(ws[i].points)
    ensures forall i :: 0 <= i < |bs| ==> bs[i] != []
  {
    seq(|ws|, i requires 0 <= i < |ws| => PutUint64(ws[i].shardID) + Lines(ws[i].points))
  }

  lemma NoWrites(n: Node, now: int)
    ensures AfterWrites(n, Marshalled([]), now) == n
  {
  }

  lemma MarshalledLast(n: Node, ws: seq<WriteRequest>, now: int)
    requires ws != []
    ensures AfterWrites(n, Marshalled(ws), now)
         == AfterWrite(AfterWrites(n, Marshalled(ws[..|ws| - 1]), now), Marshalled([ws[|ws| - 1]])[0], now)
  {
    hide AfterWrite, PutUint64, Lines;
    assert Marshalled(ws)[..|ws| - 1] == Marshalled(ws[..|ws| - 1]);
  }

  /** The loop of a purge ends. */
  ghost predicate CanPurge(q: M.State, cutoff: int, clock: nat -> int) {
    q.segs != [] && G.CanEnd(q, cutoff, clock, 0)
  }

  /** A purge that ends in pass last takes the node from n to n'. */
  ghost predicate PurgeTakes(n: Node, n': Node, cutoff: int, clock: nat -> int, last: nat) {
    && n.q.segs != []
    && G.LastPass(n.q, cutoff, clock, 0, last)
    && n' == AfterPurge(n, cutoff, clock(last), G.Spins(n.q, 0, last))
  }

  lemma NodePurged(n: Node, cutoff: int, clock: nat -> int, last: nat) returns (n': Node)
    requires Accounted(n) && n.sender.Idle? && n.q.segs != [] && G.LastPass(n.q, cutoff, clock, 0, last)
    ensures PurgeTakes(n, n', cutoff, clock, last) && exists k :: PurgeDoes(n, cutoff, n', k)
    ensures Accounted(n') && n'.sender.Idle? && n'.q == G.Outcome(n.q, cutoff, clock, 0, last) && n'.q.open
  {
    hide Accounted, AfterPurge, M.Purge, G.Spins, G.LastPass, PurgeDoes;
    PurgeEffect(n, cutoff, clock(last), G.Spins(n.q, 0, last));
    var k := PurgeOutcome(n, cutoff, clock(last), G.Spins(n.q, 0, last));
    n' := AfterPurge(n, cutoff, clock(last), G.Spins(n.q, 0, last));
  }

  /** The queue is in order and holds the same blocks. */
  ghost predicate Reopens(q: M.State, q': M.State) {
    P.Inv(q') && multiset(M.Contents(q')) == multiset(M.Contents(q))
  }

  lemma CanReopen(n: Node)
    requires Accounted(n)
    ensures forall now :: Reopens(n.q, M.Open(M.Close(n.q), now))
  {
    forall now
      ensures Reopens(n.q, M.Open(M.Close(n.q), now))
    {
      R.ReopenKeeps(n.q, now);
    }
  }

  class NodeProcessor {
    const queue: Queue
    var isOpen: bool
    ghost var node: Node      // the queue with the log of accepted and departed blocks

    ghost predicate Valid()
      reads this, queue, queue.Repr
    {
      && this !in queue.Repr
      && queue.Valid()
      && queue.model.open == isOpen
      && node.q == queue.model
      && (isOpen ==> Accounted(node))
    }

    constructor (queue: Queue)
      requires queue.Valid() && !queue.model.open
      ensures Valid() && !isOpen && this.queue == queue && fresh(this)
    {
      this.queue := queue;
      isOpen := false;
      node := Node(queue.model, Idle, [], []);
    }

    /**
     Opens the queue, unless it is open already; the blocks it holds count as
     accepted.  The directory must hold what this code can have left there, which
     Close guarantees.
     */
    method Open(now: int)
      requires Valid()
      requires !isOpen ==> P.Inv(M.Open(queue.model, now))
      modifies this, queue.Repr
      ensures Valid() && isOpen && fresh(queue.Repr - old(queue.Repr))
      ensures node == if old(isOpen) then old(node)
                      else Node(M.Open(old(queue.model), now), Idle, M.Contents(node.q), [])
    {
      hide Valid, M.Open, P.Inv;
      if !isOpen {
        OpenQueue(now);
      }
    }

    method OpenQueue(now: int)
      requires Valid() && !isOpen && P.Inv(M.Open(queue.model, now))
      modifies this, queue.Repr
      ensures Valid() && isOpen && fresh(queue.Repr - old(queue.Repr))
      ensures node == Node(M.Open(old(queue.model), now), Idle, M.Contents(node.q), [])
    {
      hide Queue.Valid, M.Open, P.Inv;
      queue.Open(now);
      isOpen := true;
      node := Node(queue.model, Idle, M.Contents(queue.model), []);
      OpenedAccounted(node);
    }

    /** Closes the queue, unless it is closed already; an open queue can be opened again with the same blocks. */
    method Close()
      requires Valid()
      modifies this, queue.Repr
      ensures Valid() && !isOpen && queue.Repr == old(queue.Repr)
      ensures old(isOpen) ==> queue.model == M.Close(old(queue.model)) && node == old(node).(q := queue.model)
      ensures !old(isOpen) ==> queue.model == old(queue.model) && node == old(node)
      ensures old(isOpen) ==> forall now :: Reopens(old(queue.model), M.Open(queue.model, now))
    {
      hide Valid, Reopens;
      if isOpen {
        CloseQueue();
      }
    }

    method CloseQueue()
      requires Valid() && isOpen
      modifies this, queue.Repr
      ensures Valid() && !isOpen && queue.Repr == old(queue.Repr)
      ensures queue.model == M.Close(old(queue.model)) && node == old(node).(q := queue.model)
      ensures forall now :: Reopens(old(queue.model), M.Open(queue.model, now))
    {
      CanReopen(node);
      hide Queue.Valid, Accounted, Reopens;
      queue.Close();
      isOpen := false;
      node := node.(q := queue.model);
    }

    /** Accepts points for a shard of the remote node. */
    method WriteShard(shardID: nat, points: seq<seq<byte>>, now: int) returns (status: Status)
      requires Valid()
      modifies this`node, queue.Repr
      ensures Valid() && isOpen == old(isOpen) && fresh(queue.Repr - old(queue.Repr))
      ensures !isOpen ==> status == ErrNotOpen && node == old(node)
      ensures isOpen ==> node == AfterWrite(old(node), PutUint64(shardID) + Lines(points), now)
      ensures Handoff.Holds(PutUint64(shardID) + Lines(points), shardID, points)
      ensures isOpen ==> WriteDoes(old(node), PutUint64(shardID) + Lines(points), node, status)
    {
      MarshalRoundTrip(shardID, points);
      hide Valid, Lines, PutUint64, AfterWrite, Handoff.Holds, WriteDoes;
      if !isOpen {
        return ErrNotOpen;
      }
      var b := MarshalWrite(shardID, points);
      status := Enqueue(b, now);
    }

    /** Appends a block to the queue. */
    method Enqueue(b: Block, now: int) returns (status: Status)
      requires Valid() && isOpen && b != []
      modifies this`node, queue.Repr
      ensures Valid() && isOpen && node == AfterWrite(old(node), b, now)
      ensures fresh(queue.Repr - old(queue.Repr))
      ensures WriteDoes(old(node), b, node, status)
    {
      hide Accounted, Queue.Valid, AfterWrite, M.Append, WriteDoes;
      WriteEffect(node, b, now);
      WriteOutcome(node, b, now);
      status := queue.Append(b, now);
      node := AfterWrite(node, b, now);
    }

    /** Writes of other goroutines, one after the other. */
    method WriteAll(ws: seq<WriteRequest>, now: int)
      requires Valid() && isOpen
      modifies this`node, queue.Repr
      ensures Valid() && isOpen && fresh(queue.Repr - old(queue.Repr))
      ensures node == AfterWrites(old(node), Marshalled(ws), now) && node.sender == old(node).sender
    {
      hide Valid, AfterWrite, AfterWrites, Accounted, Marshalled;
      SenderStays(ws, now);
      if ws == [] {
        NoWrites(node, now);
      } else {
        MarshalledLast(node, ws, now);
        WriteAll(ws[..|ws| - 1], now);
        WriteRequested(ws[|ws| - 1], now);
      }
    }

    lemma SenderStays(ws: seq<WriteRequest>, now: int)
      requires Valid() && isOpen
      ensures AfterWrites(node, Marshalled(ws), now).sender == node.sender
    {
      assert Accounted(node);
      hide Valid, Accounted;
      WritesKeepSender(node, Marshalled(ws), now);
    }

    method WriteRequested(w: WriteRequest, now: int)
      requires Valid() && isOpen
      modifies this`node, queue.Repr
      ensures Valid() && isOpen && fresh(queue.Repr - old(queue.Repr))
      ensures node == AfterWrite(old(node), Marshalled([w])[0], now)
    {
      hide Valid, AfterWrite, Lines, PutUint64;
      var status := WriteShard(w.shardID, w.points, now);
    }

    /**
     Sends the block at the head of the queue.  The parameters say whether the
     node is active, what is written while the block is on its way, whether the
     block can be parsed, and whether the remote write succeeds.
     */
    method SendWrite(
      active: bool, during: seq<WriteRequest>, parses: bool, remoteOk: bool, now: int)
      returns (r: SendResult)
      requires Valid() && isOpen && node.sender.Idle?
      modifies this`node, queue.Repr
      ensures Valid() && isOpen && node.sender.Idle? && fresh(queue.Repr - old(queue.Repr))
      ensures if active then SendDoes(old(node), Marshalled(during), parses, remoteOk, now, node, r)
              else node == old(node) && r == NodeInactive
    {
      hide Valid, AfterSend, SendDoes;
      if !active {
        return NodeInactive;
      }
      SendPossible(during, parses, remoteOk, now);
      r := SendHead(during, parses, remoteOk, now);
    }

    lemma SendPossible(during: seq<WriteRequest>, parses: bool, remoteOk: bool, now: int)
      requires Valid() && isOpen && node.sender.Idle?
      ensures var (n', r) := AfterSend(node, Marshalled(during), parses, remoteOk, now);
              SendDoes(node, Marshalled(during), parses, remoteOk, now, n', r)
    {
      assert Accounted(node);
      hide Valid, Accounted, AfterSend, SendDoes;
      SendOutcome(node, Marshalled(during), parses, remoteOk, now);
    }

    /** Reads the block at the head of the queue and sends it. */
    method SendHead(during: seq<WriteRequest>, parses: bool, remoteOk: bool, now: int) returns (r: SendResult)
      requires Valid() && isOpen && node.sender.Idle?
      modifies this`node, queue.Repr
      ensures Valid() && isOpen && node.sender.Idle? && fresh(queue.Repr - old(queue.Repr))
      ensures (node, r) == AfterSend(old(node), Marshalled(during), parses, remoteOk, now)
    {
      hide Valid, AfterRead, AfterHeld, AfterWrites;
      var status, buf := ReadHead();
      if status != Ok {
        return NoBlock;
      }
      WriteAll(during, now);
      r := Dispatch(buf, parses, remoteOk, now);
    }

    /** Skips, releases or delivers the block in the sender's hands. */
    method Dispatch(buf: Block, parses: bool, remoteOk: bool, now: int) returns (r: SendResult)
      requires Valid() && isOpen && node.sender == Holding(buf)
      modifies this`node, queue.Repr
      ensures Valid() && isOpen && node.sender.Idle? && fresh(queue.Repr - old(queue.Repr))
      ensures (node, r) == AfterHeld(old(node), parses, remoteOk, now)
    {
      hide Valid, AfterFinish;
      if UnmarshalWrite(buf).None? || !parses {
        TakeOut(false, now);
        return Unparseable;
      }
      if !remoteOk {
        Release();
        return RemoteFailed;
      }
      TakeOut(true, now);
      return SendResult.Sent(|buf|);
    }

    /** Takes the block at the head of the queue into the sender's hands. */
    method ReadHead() returns (status: Status, buf: Block)
      requires Valid() && isOpen && node.sender.Idle?
      modifies this`node, queue.Repr
      ensures Valid() && isOpen && node == AfterRead(old(node)) && queue.Repr == old(queue.Repr)
      ensures node.sender == if status == Ok then Holding(buf) else Idle
    {
      hide Accounted, Queue.Valid, AfterRead, M.Current;
      ReadEffect(node);
      status, buf := queue.Current();
      node := AfterRead(node);
    }

    /** Advances the queue past the block in the sender's hands. */
    method TakeOut(delivered: bool, now: int)
      requires Valid() && isOpen && node.sender.Holding?
      modifies this`node, queue.Repr
      ensures Valid() && isOpen && node == AfterFinish(old(node), delivered, now) && node.sender.Idle?
      ensures fresh(queue.Repr - old(queue.Repr))
    {
      hide Accounted, Queue.Valid, AfterFinish, M.Advance;
      FinishEffect(node, delivered, now);
      var status := queue.Advance(now);
      node := AfterFinish(node, delivered, now);
    }

    /** The block stays at the head of the queue. */
    ghost method Release()
      requires Valid() && isOpen && node.sender.Holding?
      modifies this`node
      ensures Valid() && isOpen && node == old(node).(sender := Idle)
    {
      hide Queue.Valid, P.Inv;
      node := node.(sender := Idle);
    }

    /**
     The sender's own purge of old segments, between two sends; the clock is read
     once in every pass of its loop.
     */
    method Purge(when: int, clock: nat -> int) returns (ghost last: nat)
      requires Valid() && isOpen && node.sender.Idle? && CanPurge(node.q, Truncate(when, SECOND), clock)
      modifies this`node, queue.Repr
      ensures Valid() && isOpen && node.sender.Idle? && fresh(queue.Repr - old(queue.Repr))
      ensures PurgeTakes(old(node), node, Truncate(when, SECOND), clock, last)
      ensures exists k :: PurgeDoes(old(node), Truncate(when, SECOND), node, k)
    {
      hide Accounted, Queue.Valid, PurgeTakes, PurgeDoes, G.LastPass, G.CanEnd, G.Outcome, Truncate;
      last := queue.PurgeOlderThan(when, clock);
      ghost var n := NodePurged(node, Truncate(when, SECOND), clock, last);
      node := n;
    }
  }
}
