/**
 The byte layout of one segment file: length-prefixed blocks, then an eight
 byte footer with the offset of the block at the head.
 */
module SegmentFormat {
  import opened BigEndian
  import opened Options

  type Block = seq<byte>

  const FOOTER_SIZE := 8

  /** How an operation on a segment or on the queue ends. */
  datatype Status = Ok | EOF | ErrNotOpen | ErrQueueFull | ErrSegmentFull | ErrRecordSize | ErrShortRead

  function EncodeBlock(b: Block): (d: seq<byte>)
    ensures |d| == 8 + |b|
  {
    PutUint64(|b|) + b
  }

  /** The blocks, one after the other, as append writes them. */
  function Encode(bs: seq<Block>): (d: seq<byte>)
    ensures |d| == Len(bs)
  {
    if bs == [] then [] else Encode(bs[..|bs| - 1]) + EncodeBlock(bs[|bs| - 1])
  }

  /** The number of bytes that the blocks take on disk. */
  function Len(bs: seq<Block>): nat {
    if bs == [] then 0 else Len(bs[..|bs| - 1]) + 8 + |bs[|bs| - 1]|
  }

  /** Every block length can be written as a 64-bit number. */
  ghost predicate Sized(bs: seq<Block>) {
    forall i :: 0 <= i < |bs| ==> |bs[i]| < TWO_64
  }

  /** The file holds these blocks, and its footer points at block number head. */
  ghost predicate IsImage(data: seq<byte>, blocks: seq<Block>, head: nat) {
    && head <= |blocks|
    && |data| < TWO_63
    && data == Encode(blocks) + PutUint64(Len(blocks[..head]))
  }

  /** The length of the block at the head, or 0 when every block was read. */
  function HeadSize(blocks: seq<Block>, head: nat): nat {
    if head < |blocks| then |blocks[head]| else 0
  }

  lemma Associate(a: seq<byte>, b: seq<byte>, c: seq<byte>)
    ensures (a + b) + c == a + (b + c)
  {
  }

  lemma EncodeSnoc(bs: seq<Block>, b: Block)
    ensures Encode(bs + [b]) == Encode(bs) + EncodeBlock(b)
    ensures Len(bs + [b]) == Len(bs) + 8 + |b|
  {
    assert (bs + [b])[..|bs|] == bs;
  }

  lemma {:induction false} EncodeConcat(a: seq<Block>, b: seq<Block>)
    ensures Encode(a + b) == Encode(a) + Encode(b)
    ensures Len(a + b) == Len(a) + Len(b)
  {
    if b == [] {
      assert a + b == a;
    } else {
      var front, last := b[..|b| - 1], b[|b| - 1];
      assert a + b == (a + front) + [last];
      EncodeConcat(a, front);
      calc {
        Encode(a + b);
        { EncodeSnoc(a + front, last); }
        Encode(a + front) + EncodeBlock(last);
        (Encode(a) + Encode(front)) + EncodeBlock(last);
        { Associate(Encode(a), Encode(front), EncodeBlock(last)); }
        Encode(a) + (Encode(front) + EncodeBlock(last));
        Encode(a) + Encode(b);
      }
    }
  }

  lemma EncodeCons(b: Block, bs: seq<Block>)
    ensures Encode([b] + bs) == EncodeBlock(b) + Encode(bs)
  {
    EncodeConcat([b], bs);
    EncodeSnoc([], b);
    assert [] + [b] == [b];
    assert Encode([]) + EncodeBlock(b) == EncodeBlock(b);
  }

  /** Block h sits right behind the encoding of the blocks before it. */
  lemma EncodeAt(bs: seq<Block>, h: nat)
    requires h < |bs|
    ensures Encode(bs) == Encode(bs[..h]) + EncodeBlock(bs[h]) + Encode(bs[h + 1..])
    ensures Len(bs[..h + 1]) == Len(bs[..h]) + 8 + |bs[h]|
    ensures Len(bs) == Len(bs[..h + 1]) + Len(bs[h + 1..])
  {
    assert bs == bs[..h + 1] + bs[h + 1..];
    assert bs[..h + 1] == bs[..h] + [bs[h]];
    EncodeConcat(bs[..h + 1], bs[h + 1..]);
    EncodeSnoc(bs[..h], bs[h]);
  }

  /** A block boundary lies at the end of the file only when every block is in front of it. */
  lemma BoundaryAtEnd(bs: seq<Block>, h: nat)
    requires h <= |bs|
    ensures Len(bs[..h]) <= Len(bs)
    ensures Len(bs[..h]) == Len(bs) <==> h == |bs|
  {
    if h == |bs| {
      assert bs[..h] == bs;
    } else {
      EncodeAt(bs, h);
    }
  }

  lemma FitsSized(bs: seq<Block>)
    requires Len(bs) < TWO_64
    ensures Sized(bs)
  {
    forall i | 0 <= i < |bs|
      ensures |bs[i]| < TWO_64
    {
      EncodeAt(bs, i);
    }
  }

  /** A reader of the format that knows nothing of how the bytes were written. */
  function Parse(d: seq<byte>): (r: Option<seq<Block>>)
    decreases |d|
  {
    if d == [] then Some([])
    else if |d| < 8 then None
    else
      var n := Uint64(d[..8]);
      if 8 + n > |d| then None
      else match Parse(d[8 + n..])
        case None => None
        case Some(rest) => Some([d[8..8 + n]] + rest)
  }

  lemma {:induction false} ParseEncode(bs: seq<Block>)
    requires Sized(bs)
    ensures Parse(Encode(bs)) == Some(bs)
  {
    hide PutUint64, Uint64, Len;
    if bs == [] {
    } else {
      var d := Encode(bs);
      assert bs == [bs[0]] + bs[1..];
      EncodeCons(bs[0], bs[1..]);
      assert d[..8] == PutUint64(|bs[0]|);
      Uint64RoundTrip(|bs[0]|, d[..8]);
      assert d[8..8 + |bs[0]|] == bs[0];
      assert d[8 + |bs[0]|..] == Encode(bs[1..]);
      ParseEncode(bs[1..]);
    }
  }

  /** What one step of the reader takes off the front is exactly one encoded block. */
  lemma BlockAtFront(d: seq<byte>, n: nat)
    requires |d| >= 8 && n == Uint64(d[..8]) && 8 + n <= |d|
    ensures EncodeBlock(d[8..8 + n]) + d[8 + n..] == d
  {
    Uint64RoundTrip(n, d[..8]);
    assert d[..8] + d[8..8 + n] == d[..8 + n];
    assert d[..8 + n] + d[8 + n..] == d;
  }

  lemma {:induction false} EncodeParse(d: seq<byte>)
    requires Parse(d).Some?
    ensures Encode(Parse(d).value) == d
    decreases |d|
  {
    if d == [] {
    } else {
      var n := Uint64(d[..8]);
      EncodeParse(d[8 + n..]);
      EncodeCons(d[8..8 + n], Parse(d[8 + n..]).value);
      BlockAtFront(d, n);
    }
  }

  /** The bytes of a file determine its blocks and its head: nothing else needs to be stored. */
  lemma ImageUnique(data: seq<byte>, blocks: seq<Block>, head: nat, blocks': seq<Block>, head': nat)
    requires IsImage(data, blocks, head) && IsImage(data, blocks', head')
    ensures blocks == blocks' && head == head'
  {
    hide PutUint64, Uint64, Parse, Sized;
    var n := |data| - 8;
    assert data[..n] == Encode(blocks) && data[..n] == Encode(blocks');
    FitsSized(blocks);
    ParseEncode(blocks);
    FitsSized(blocks');
    ParseEncode(blocks');
    assert data[n..] == PutUint64(Len(blocks[..head])) && data[n..] == PutUint64(Len(blocks[..head']));
    BoundaryAtEnd(blocks, head);
    BoundaryAtEnd(blocks, head');
    Uint64RoundTrip(Len(blocks[..head]), data[n..]);
    Uint64RoundTrip(Len(blocks[..head']), data[n..]);
    if head < head' {
      assert blocks[..head'][..head] == blocks[..head];
      BoundaryAtEnd(blocks[..head'], head);
    } else if head' < head {
      assert blocks[..head][..head'] == blocks[..head'];
      BoundaryAtEnd(blocks[..head], head');
    }
  }
}
