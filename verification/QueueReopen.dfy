/** Closing the queue and opening it again from what is on disk. */
module QueueReopen {
  import opened SegmentFormat
  import opened SegmentNames
  import opened QueueModel
  import opened QueueProofs

  /** The ids appear in the order of a directory listing. */
  ghost predicate ListedIds(ids: seq<nat>) {
    forall i, j :: 0 <= i < j < |ids| ==> Earlier(ids[i], ids[j])
  }

  function InsertId(id: nat, ids: seq<nat>): seq<nat> {
    if ids == [] || Earlier(id, ids[0]) then [id] + ids else [ids[0]] + InsertId(id, ids[1..])
  }

  lemma {:induction false} InsertIdMember(id: nat, ids: seq<nat>, x: nat)
    ensures x in InsertId(id, ids) <==> x == id || x in ids
  {
    if ids == [] || Earlier(id, ids[0]) {
    } else {
      InsertIdMember(id, ids[1..], x);
    }
  }

  lemma {:induction false} InsertIdListed(id: nat, ids: seq<nat>)
    requires ListedIds(ids) && id !in ids
    ensures ListedIds(InsertId(id, ids))
  {
    var r := InsertId(id, ids);
    if ids == [] {
    } else if Earlier(id, ids[0]) {
      forall j | 1 <= j < |r|
        ensures Earlier(id, r[j])
      {
        if j > 1 {
          BeforeTransitive(Name(id), Name(ids[0]), Name(ids[j - 1]));
        }
      }
    } else {
      EarlierTotal(id, ids[0]);
      InsertIdListed(id, ids[1..]);
      var rest := InsertId(id, ids[1..]);
      forall j | 0 <= j < |rest|
        ensures Earlier(ids[0], rest[j])
      {
        InsertIdMember(id, ids[1..], rest[j]);
      }
    }
  }

  lemma HasFirst(b: seq<nat>)
    requires b != []
    ensures b[0] in b
  {
  }

  lemma FirstOnce(a: seq<nat>)
    requires ListedIds(a) && a != []
    ensures a[0] !in a[1..] && a == [a[0]] + a[1..]
  {
    EarlierTotal(a[0], a[0]);
  }

  /** A directory listing is determined by the set of names in it. */
  lemma {:induction false} ListedIdsUnique(a: seq<nat>, b: seq<nat>)
    requires ListedIds(a) && ListedIds(b)
    requires forall x :: x in a <==> x in b
    ensures a == b
  {
    if a == [] {
      if b != [] {
        HasFirst(b);
      }
    } else {
      assert a[0] in b;
      assert b[0] in a;
      EarlierTotal(a[0], b[0]);
      FirstOnce(a);
      FirstOnce(b);
      assert forall x :: x in a[1..] <==> x in a && x != a[0];
      assert forall x :: x in b[1..] <==> x in b && x != b[0];
      ListedIdsUnique(a[1..], b[1..]);
    }
  }

  /** Each segment is listed before the ones behind it. */
  ghost predicate Listed(segs: seq<Seg>) {
    forall i, j :: 0 <= i < j < |segs| ==> Earlier(segs[i].id, segs[j].id)
  }

  ghost predicate SameElements(a: seq<Seg>, b: seq<Seg>) {
    multiset(a) == multiset(b)
  }

  lemma InsertElements(s: Seg, segs: seq<Seg>)
    ensures multiset(InsertByName(s, segs)) == multiset{s} + multiset(segs)
    ensures |InsertByName(s, segs)| == |segs| + 1
  {
    if segs == [] || Earlier(s.id, segs[0].id) {
    } else {
      InsertElements(s, segs[1..]);
      assert segs == [segs[0]] + segs[1..];
    }
  }

  lemma InsertTotals(s: Seg, segs: seq<Seg>)
    ensures Usage(InsertByName(s, segs)) == Size(s) + Usage(segs)
    ensures multiset(UnreadAll(InsertByName(s, segs))) == multiset(Unread(s)) + multiset(UnreadAll(segs))
  {
    if segs == [] || Earlier(s.id, segs[0].id) {
      Cons(s, segs);
    } else {
      InsertTotals(s, segs[1..]);
      Cons(segs[0], InsertByName(s, segs[1..]));
    }
  }

  lemma {:induction false} InsertListed(s: Seg, segs: seq<Seg>)
    requires Listed(segs)
    requires forall i :: 0 <= i < |segs| ==> segs[i].id != s.id
    ensures Listed(InsertByName(s, segs))
  {
    var r := InsertByName(s, segs);
    if segs == [] {
    } else if Earlier(s.id, segs[0].id) {
      forall j | 1 <= j < |r|
        ensures Earlier(s.id, r[j].id)
      {
        if j > 1 {
          BeforeTransitive(Name(s.id), Name(segs[0].id), Name(segs[j - 1].id));
        }
      }
    } else {
      EarlierTotal(s.id, segs[0].id);
      InsertListed(s, segs[1..]);
      InsertElements(s, segs[1..]);
      var rest := InsertByName(s, segs[1..]);
      forall j | 0 <= j < |rest|
        ensures Earlier(segs[0].id, rest[j].id)
      {
        assert rest[j] in multiset(rest);
        assert rest[j] == s || rest[j] in segs[1..];
      }
    }
  }

  /** Loading neither drops nor doubles a segment, and lists them by name. */
  lemma {:induction false} ByNameSorts(segs: seq<Seg>)
    requires DistinctIds(segs)
    ensures SameElements(ByName(segs), segs)
    ensures Listed(ByName(segs))
  {
    if segs == [] {
    } else {
      ByNameSorts(segs[1..]);
      InsertElements(segs[0], ByName(segs[1..]));
      assert segs == [segs[0]] + segs[1..];
      forall s | s in ByName(segs[1..])
        ensures s.id != segs[0].id
      {
        assert s in multiset(ByName(segs[1..]));
        assert s in segs[1..];
      }
      InsertListed(segs[0], ByName(segs[1..]));
    }
  }

  lemma {:induction false} ByNameTotals(segs: seq<Seg>)
    ensures Usage(ByName(segs)) == Usage(segs)
    ensures multiset(UnreadAll(ByName(segs))) == multiset(UnreadAll(segs))
  {
    if segs == [] {
    } else {
      ByNameTotals(segs[1..]);
      InsertTotals(segs[0], ByName(segs[1..]));
    }
  }

  lemma {:induction false} ListedUnique(a: seq<Seg>, b: seq<Seg>)
    requires Listed(a) && Listed(b) && SameElements(a, b)
    ensures a == b
  {
    if a == [] {
      assert |b| == |multiset(b)|;
    } else {
      FirstListed(a, b);
      assert a == [a[0]] + a[1..] && b == [b[0]] + b[1..];
      assert multiset(a[1..]) == multiset(a) - multiset{a[0]};
      assert multiset(b[1..]) == multiset(b) - multiset{b[0]};
      ListedUnique(a[1..], b[1..]);
    }
  }

  lemma FirstListed(a: seq<Seg>, b: seq<Seg>)
    requires Listed(a) && Listed(b) && SameElements(a, b) && a != []
    ensures b != [] && a[0] == b[0]
  {
    assert a[0] in multiset(b);
    var i :| 0 <= i < |b| && b[i] == a[0];
    assert b[0] in multiset(a);
    var j :| 0 <= j < |a| && a[j] == b[0];
    EarlierTotal(a[0].id, b[0].id);
  }

  function Reopen(q: State, now: int): State {
    Open(Close(q), now)
  }

  /** The segments in the order in which a reopening finds them, before the head is looked at. */
  function Found(q: State): seq<Seg> {
    ByName(Reload(q.segs))
  }

  lemma {:induction false} ReloadTotals(segs: seq<Seg>)
    ensures Usage(Reload(segs)) == Usage(segs)
    ensures UnreadAll(Reload(segs)) == UnreadAll(segs)
  {
    if segs == [] {
    } else {
      ReloadTotals(segs[1..]);
      assert Reload(segs)[1..] == Reload(segs[1..]);
    }
  }

  lemma ListedDistinct(segs: seq<Seg>)
    requires Listed(segs)
    ensures DistinctIds(segs)
  {
    forall i, j | 0 <= i < j < |segs|
      ensures segs[i].id != segs[j].id
    {
      EarlierTotal(segs[i].id, segs[j].id);
    }
  }

  lemma FoundElements(q: State)
    requires DistinctIds(q.segs)
    ensures SameElements(Found(q), Reload(q.segs)) && Listed(Found(q))
    ensures |Found(q)| == |q.segs|
  {
    assert DistinctIds(Reload(q.segs));
    ByNameSorts(Reload(q.segs));
    assert |multiset(Found(q))| == |multiset(Reload(q.segs))|;
  }

  /** The id of every segment, in order. */
  function IdList(segs: seq<Seg>): (ids: seq<nat>)
    ensures |ids| == |segs| && forall k :: 0 <= k < |ids| ==> ids[k] == segs[k].id
  {
    seq(|segs|, k requires 0 <= k < |segs| => segs[k].id)
  }

  lemma InIdList(segs: seq<Seg>, x: nat)
    ensures x in IdList(segs) <==> x in Ids(segs)
  {
    hide Ids;
    if x in Ids(segs) {
      var k := IdFrom(segs, x);
      assert IdList(segs)[k] == x;
    }
    if x in IdList(segs) {
      var k :| 0 <= k < |segs| && IdList(segs)[k] == x;
      IdIn(segs, k);
    }
  }

  lemma SameIdSet(a: seq<Seg>, q: State)
    requires DistinctIds(q.segs) && a == Found(q)
    ensures Ids(a) == Ids(q.segs)
  {
    forall x
      ensures x in Ids(a) <==> x in Ids(q.segs)
    {
      FoundId(q, x);
    }
  }

  /** A listing of the directory names the segments in the order in which they are found. */
  lemma FoundIds(q: State, ids: seq<nat>)
    requires DistinctIds(q.segs) && ListedIds(ids)
    requires forall x :: x in ids <==> x in Ids(q.segs)
    ensures |ids| == |Found(q)|
    ensures forall k :: 0 <= k < |ids| ==> ids[k] == Found(q)[k].id
    ensures Ids(Found(q)) == Ids(q.segs) && DistinctIds(Found(q))
  {
    FoundElements(q);
    ListedDistinct(Found(q));
    hide Found, Ids, DistinctIds;
    SameIdSet(Found(q), q);
    forall x
      ensures x in IdList(Found(q)) <==> x in ids
    {
      InIdList(Found(q), x);
    }
    ListedIdsUnique(ids, IdList(Found(q)));
  }

  lemma FoundId(q: State, x: nat)
    requires DistinctIds(q.segs)
    ensures x in Ids(Found(q)) <==> x in Ids(q.segs)
  {
    hide Found, Ids;
    if x in Ids(Found(q)) {
      var k := IdFrom(Found(q), x);
      var i := FoundFrom(q, k);
      IdIn(q.segs, i);
    }
    if x in Ids(q.segs) {
      var i := IdFrom(q.segs, x);
      var k := FoundAt(q, i);
      IdIn(Found(q), k);
    }
  }

  lemma FoundAt(q: State, i: nat) returns (k: nat)
    requires DistinctIds(q.segs) && i < |q.segs|
    ensures k < |Found(q)| && Found(q)[k] == Refreshed(q.segs[i])
  {
    FoundElements(q);
    assert Reload(q.segs)[i] in multiset(Found(q));
    k :| 0 <= k < |Found(q)| && Found(q)[k] == Reload(q.segs)[i];
  }

  lemma FoundFrom(q: State, k: nat) returns (i: nat)
    requires DistinctIds(q.segs) && k < |Found(q)|
    ensures i < |q.segs| && Found(q)[k] == Refreshed(q.segs[i])
  {
    FoundElements(q);
    assert Found(q)[k] in multiset(Found(q));
    assert Found(q)[k] in Reload(q.segs);
    i :| 0 <= i < |Reload(q.segs)| && Reload(q.segs)[i] == Found(q)[k];
  }

  /** Whatever was cached before, the head of a loaded queue has the right length cached. */
  lemma LoadedHead(q: State, now: int)
    requires DistinctIds(q.segs)
    ensures var l := Load(q, now);
            && l.segs != [] && l.open && !l.stale
            && Current(l).0 == l
            && (Current(l).1 == EOF <==> Drained(l.segs[0]))
  {
    assert Load(q, now).segs != [];
    assert CacheRight(Load(q, now).segs[0]) by {
      if Found(q) != [] {
        var i := FoundFrom(q, 0);
      }
    }
    var l := Load(q, now);
    assert [l.segs[0]] + l.segs[1..] == l.segs;
  }

  lemma FoundShape(q: State, now: int)
    requires Shape(q)
    ensures Load(Close(q), now) == q.(segs := Found(q), stale := false)
    ensures Shape(Load(Close(q), now)) && CachesRight(Load(Close(q), now))
  {
    FoundElements(q);
    ListedDistinct(Found(q));
    forall k | 0 <= k < |Found(q)|
      ensures CacheRight(Found(q)[k])
      ensures Found(q)[k].id >= 1 && Found(q)[k].head <= |Found(q)[k].blocks|
    {
      var i := FoundFrom(q, k);
    }
  }

  lemma FoundBounded(q: State, now: int)
    requires Shape(q) && Bounded(q)
    ensures Bounded(Load(Close(q), now))
  {
    FoundElements(q);
    ReloadTotals(q.segs);
    ByNameTotals(Reload(q.segs));
    forall k | 0 <= k < |Found(q)|
      ensures SegBounded(Found(q)[k], q.maxSegmentSize)
    {
      var i := FoundFrom(q, k);
      assert SegBounded(q.segs[i], q.maxSegmentSize);
    }
  }

  /**
   Closing and opening again keeps every unread block, repairs the cached lengths
   and gives the queue a live tail again, whatever the segment ids are.
   */
  lemma ReopenKeeps(q: State, now: int)
    requires Shape(q) && Bounded(q)
    ensures Inv(Reopen(q, now)) && !Reopen(q, now).stale
    ensures multiset(Contents(Reopen(q, now))) == multiset(Contents(q))
  {
    FoundShape(q, now);
    FoundBounded(q, now);
    ReloadTotals(q.segs);
    ByNameTotals(Reload(q.segs));
    TrimKeeps(Load(Close(q), now));
  }

  predicate OneWidth(q: State)
    requires q.segs != []
  {
    |Name(q.segs[0].id)| == |Name(q.segs[|q.segs| - 1].id)|
  }

  lemma OrderedListedIff(q: State)
    requires Ordered(q)
    ensures Listed(q.segs) <==> OneWidth(q)
  {
    var lo := q.segs[0].id;
    var hi := lo + |q.segs| - 1;
    ListedInOrderIffOneWidth(lo, hi);
    if Listed(q.segs) {
      forall m, n | lo <= m < n <= hi
        ensures Earlier(m, n)
      {
        assert q.segs[m - lo].id == m && q.segs[n - lo].id == n;
      }
    } else {
      var i, j :| 0 <= i < j < |q.segs| && !Earlier(q.segs[i].id, q.segs[j].id);
      assert lo <= lo + i < lo + j <= hi;
    }
  }

  /** An ordered queue is found again in its own order if and only if its first and last id have equally many digits. */
  lemma FoundInOrderIff(q: State)
    requires Shape(q) && CachesRight(q) && Ordered(q)
    ensures Found(q) == q.segs <==> OneWidth(q)
  {
    FoundElements(q);
    OrderedListedIff(q);
    assert Reload(q.segs) == q.segs;
    if OneWidth(q) {
      ListedUnique(Found(q), q.segs);
    }
  }

  /** Within one width of ids, closing and opening changes nothing that a reader can see and ends a stall. */
  lemma ReopenPreserves(q: State, now: int)
    requires Inv(q) && Ordered(q) && OneWidth(q)
    ensures Contents(Reopen(q, now)) == Contents(q)
    ensures Ordered(Reopen(q, now))
    ensures NoGap(q) ==> NoGap(Reopen(q, now)) && !Stalled(Reopen(q, now))
  {
    FoundShape(q, now);
    FoundInOrderIff(q);
    FoundBounded(q, now);
    var l := Load(Close(q), now);
    TrimKeeps(l);
    if Drained(l.segs[0]) && |l.segs| == 1 {
      NothingUnread(l.segs);
    }
  }

  /** The first two segments that a reopening finds have nothing to read, although data is waiting. */
  predicate FindsGap(q: State) {
    var found := Found(q);
    |found| > 1 && Drained(found[0]) && Drained(found[1]) && UnreadAll(found[1..]) != []
  }

  /** A reopening trims one drained segment, and so leaves a stall exactly when a second one follows. */
  lemma ReopenStallsIff(q: State, now: int)
    requires Shape(q)
    ensures Stalled(Reopen(q, now)) <==> FindsGap(q)
  {
    FoundShape(q, now);
    hide Found, UnreadAll, DistinctIds;
    if |Found(q)| == 1 && Drained(Found(q)[0]) {
      NothingUnread(Found(q));
    }
  }

  /** The head segment comes first in a directory listing. */
  predicate HeadListedFirst(q: State) {
    forall i :: 1 <= i < |q.segs| ==> Earlier(q.segs[0].id, q.segs[i].id)
  }

  lemma HeadFoundFirst(q: State, k: nat)
    requires DistinctIds(q.segs) && q.segs != []
    requires k < |Found(q)| && Found(q)[k] == Refreshed(q.segs[0])
    ensures k == 0 <==> HeadListedFirst(q)
  {
    FoundElements(q);
    hide Found;
    if k == 0 {
      forall i | 1 <= i < |q.segs|
        ensures Earlier(q.segs[0].id, q.segs[i].id)
      {
        var j := FoundAt(q, i);
        assert j != 0;
      }
    } else {
      var i := FoundFrom(q, 0);
      EarlierTotal(q.segs[0].id, q.segs[i].id);
      assert i != 0;
    }
  }

  lemma OthersUnread(q: State, k: nat, j: nat)
    requires DistinctIds(q.segs) && q.segs != [] && NoGap(q)
    requires k < |Found(q)| && Found(q)[k] == Refreshed(q.segs[0])
    requires j < |Found(q)| && j != k
    ensures !Drained(Found(q)[j])
  {
    FoundElements(q);
    ListedDistinct(Found(q));
    hide Found;
    var i := FoundFrom(q, j);
    assert i != 0;
  }

  /**
   When only the head can be drained, a reopening leaves no gap exactly when the
   queue is not stalled or the drained head is listed first.  In either case the
   queue is not stalled afterwards.
   */
  lemma ReopenGapIff(q: State, now: int)
    requires Shape(q) && NoGap(q)
    ensures NoGap(Reopen(q, now)) <==> (Stalled(q) ==> HeadListedFirst(q))
    ensures !Stalled(Reopen(q, now))
  {
    FoundShape(q, now);
    FoundElements(q);
    ReopenStallsIff(q, now);
    hide Found, UnreadAll;
    var k := FoundAt(q, 0);
    HeadFoundFirst(q, k);
    forall j | 0 <= j < |Found(q)| && j != k
      ensures !Drained(Found(q)[j])
    {
      OthersUnread(q, k, j);
    }
    if Drained(q.segs[0]) && |q.segs| > 1 {
      SecondUnread(q);
      assert Drained(Found(q)[k]);
    }
  }

  lemma SecondUnread(q: State)
    requires |q.segs| > 1 && !Drained(q.segs[1])
    ensures Contents(q) != []
  {
    assert Unread(q.segs[1]) != [];
    assert UnreadAll(q.segs[1..]) == Unread(q.segs[1]) + UnreadAll(q.segs[1..][1..]);
  }

  /** The directory listing puts segment 10 before segment 9, and so the blocks of the two change places. */
  lemma NineAndTenSwap(b: Block, c: Block, now: int, maxSize: int)
    requires b != [] && c != []
    ensures var q := State(true, [Seg(9, [b], 0, |b|, now), Seg(10, [c], 0, |c|, now)], false, maxSize, maxSize);
            Ordered(q) && Contents(q) == [b, c] && Contents(Reopen(q, now)) == [c, b]
  {
    var s, t := Seg(9, [b], 0, |b|, now), Seg(10, [c], 0, |c|, now);
    var q := State(true, [s, t], false, maxSize, maxSize);
    NineAndTenFound(q);
    assert Contents(q) == Unread(s) + UnreadAll([t]) by { assert q.segs[1..] == [t]; }
    UnreadOne(t);
    UnreadOne(s);
    assert UnreadAll([t, s]) == Unread(t) + UnreadAll([s]) by { assert [t, s][1..] == [s]; }
  }

  lemma NineAndTenFound(q: State)
    requires |q.segs| == 2 && q.segs[0].id == 9 && q.segs[1].id == 10
    ensures Found(q) == [Refreshed(q.segs[1]), Refreshed(q.segs[0])]
    ensures Earlier(10, 9) && !Earlier(9, 10)
  {
    assert Name(10) == Name(1) + [Digit(0)];
    WidthStep(9);
    EarlierTotal(9, 10);
    var s, t := Refreshed(q.segs[0]), Refreshed(q.segs[1]);
    assert Reload(q.segs) == [s, t];
    assert ByName([t]) == InsertByName(t, ByName([])) == [t];
    assert ByName([s, t]) == InsertByName(s, [t]) by {
      assert [s, t][1..] == [t];
    }
    assert InsertByName(s, [t]) == [t] + InsertByName(s, []);
  }

  /** For example: when segment 9 is drained and segment 10 is not, a reopening puts the drained one last. */
  lemma StalledReopenLeavesGap(b: Block, c: Block, now: int, maxSize: int)
    ensures var q := State(true, [Seg(9, [b], 1, 0, now), Seg(10, [c], 0, |c|, now)], false, maxSize, maxSize);
            && Shape(q) && NoGap(q) && Ordered(q) && Stalled(q)
            && Reopen(q, now).segs == [q.segs[1], q.segs[0]] && !NoGap(Reopen(q, now))
  {
    var q := State(true, [Seg(9, [b], 1, 0, now), Seg(10, [c], 0, |c|, now)], false, maxSize, maxSize);
    NineAndTenFound(q);
    SecondUnread(q);
    ReopenGapIff(q, now);
    FoundShape(q, now);
  }
}
