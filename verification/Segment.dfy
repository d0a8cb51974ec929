/** One segment file, read and written through a file handle. */
module Segments {
  import opened BigEndian
  import opened SegmentFormat

  /** A file on disk: its name, its bytes and the time of its last modification. */
  class File {
    const name: nat
    var data: seq<byte>
    var modified: int

    constructor (name: nat)
      ensures data == [] && this.name == name
    {
      this.name := name;
      data := [];
      modified := 0;
    }
  }

  /** The bytes of a file after b was written at an offset. */
  function Overwrite(data: seq<byte>, at: nat, b: seq<byte>): seq<byte>
    requires at <= |data|
  {
    data[..at] + b + (if at + |b| <= |data| then data[at + |b|..] else [])
  }

  /** A 64-bit number read as a signed one. */
  function Int64(n: nat): int {
    if n < TWO_63 then n else n - TWO_64
  }

  class Segment {
    const id: nat
    const maxSize: int

    var file: File?         // nil once the segment is closed
    var cursor: nat         // the offset of the file handle
    var size: int
    var pos: int
    var currentSize: int

    ghost var blocks: seq<Block>
    ghost var head: nat

    /** The fields and the bytes of the file agree on one list of blocks and one head. */
    ghost predicate Formed()
      reads this, file
    {
      && file != null
      && IsImage(file.data, blocks, head)
      && size == |file.data|
      && pos == Len(blocks[..head])
      && maxSize + 8 < TWO_63
    }

    ghost predicate Cached()
      reads this
    {
      currentSize == HeadSize(blocks, head)
    }

    // ------------------------------------------------------------ the file handle

    method SeekEnd(back: nat)
      requires file != null && back <= |file.data|
      modifies this`cursor
      ensures cursor == |file.data| - back
    {
      cursor := |file.data| - back;
    }

    method SeekToCurrent()
      requires pos >= 0
      modifies this`cursor
      ensures cursor == pos
    {
      cursor := pos;
    }

    method WriteBytes(b: seq<byte>, now: int)
      requires file != null && cursor <= |file.data|
      modifies this`cursor, file
      ensures file.data == Overwrite(old(file.data), old(cursor), b)
      ensures file.modified == now
      ensures cursor == old(cursor) + |b|
    {
      file.data := Overwrite(file.data, cursor, b);
      file.modified := now;
      cursor := cursor + |b|;
    }

    method WriteUint64(n: nat, now: int)
      requires file != null && cursor <= |file.data|
      modifies this`cursor, file
      ensures file.data == Overwrite(old(file.data), old(cursor), PutUint64(n))
      ensures file.modified == now
      ensures cursor == old(cursor) + 8
    {
      WriteBytes(PutUint64(n), now);
    }

    method ReadBytes(n: nat) returns (b: seq<byte>)
      requires file != null && cursor + n <= |file.data|
      modifies this`cursor
      ensures b == file.data[old(cursor)..old(cursor) + n]
      ensures cursor == old(cursor) + n
    {
      b := file.data[cursor..cursor + n];
      cursor := cursor + n;
    }

    method ReadUint64() returns (n: nat)
      requires file != null && cursor + 8 <= |file.data|
      modifies this`cursor
      ensures n == Uint64(file.data[old(cursor)..old(cursor) + 8])
      ensures cursor == old(cursor) + 8
    {
      var b := ReadBytes(8);
      n := Uint64(b);
    }

    // ------------------------------------------------------------ operations

    /** Reads the eight bytes at the head: the length of the head block, if there is one. */
    method ReadSizeAtHead() returns (sz: nat)
      requires Formed()
      modifies this`cursor
      ensures head < |blocks| ==> sz == |blocks[head]| && cursor == pos + 8
    {
      BoundaryAtEnd(blocks, head);
      SeekToCurrent();
      sz := ReadUint64();
      if head < |blocks| {
        BlockOf(file.data, blocks, head);
      }
    }

    /** Opens a handle on a file that is new and empty, or that holds the given blocks. */
    constructor (id: nat, f: File, maxSize: int, now: int, ghost bs: seq<Block>, ghost h: nat)
      requires maxSize + 8 < TWO_63
      requires if f.data == [] then bs == [] && h == 0 else IsImage(f.data, bs, h)
      modifies f
      ensures Formed() && Cached()
      ensures this.id == id && file == f && this.maxSize == maxSize && blocks == bs && head == h
      ensures old(f.data) == [] ==> f.modified == now
      ensures old(f.data) != [] ==> f.data == old(f.data) && f.modified == old(f.modified)
    {
      this.id := id;
      this.maxSize := maxSize;
      file := f;
      cursor := 0;
      size := |f.data|;
      pos := 0;
      currentSize := 0;
      blocks := bs;
      head := h;
      new;
      if size == 0 {
        Create(now);
      } else {
        Load();
      }
    }

    /** The footer of a file that has no blocks yet. */
    method Create(now: int)
      requires file != null && file.data == [] && cursor == 0 && blocks == [] && head == 0
      requires pos == 0 && currentSize == 0 && maxSize + 8 < TWO_63
      modifies this`cursor, this`size, file
      ensures Formed() && Cached() && file.modified == now
    {
      WriteUint64(pos, now);
      size := FOOTER_SIZE;
      assert blocks[..head] == [];
      assert file.data == Encode(blocks) + PutUint64(0);
    }

    /** The position and the length of the head block of a file that was written before. */
    method Load()
      requires file != null && IsImage(file.data, blocks, head) && size == |file.data|
      requires currentSize == 0 && maxSize + 8 < TWO_63
      modifies this`cursor, this`pos, this`currentSize
      ensures Formed() && Cached()
    {
      FooterOf(file.data, blocks, head);
      SeekEnd(FOOTER_SIZE);
      assert file.data[cursor..cursor + 8] == file.data[|file.data| - 8..];
      var p := ReadUint64();
      pos := p;
      BoundaryAtEnd(blocks, head);
      if pos < size - FOOTER_SIZE {
        var sz := ReadSizeAtHead();
        currentSize := sz;
      }
    }

    /** Overwrites the footer with a block and puts the footer behind it. */
    method WriteBlock(b: Block, now: int)
      requires Formed()
      modifies this`cursor, file
      ensures file.data == Encode(blocks + [b]) + PutUint64(pos) && file.modified == now
      ensures |file.data| == size + 8 + |b|
    {
      hide PutUint64, Encode, Len;
      ghost var before := Encode(blocks);
      SeekEnd(FOOTER_SIZE);
      WriteUint64(|b|, now);
      assert file.data == before + PutUint64(|b|);
      WriteBytes(b, now);
      assert file.data == before + EncodeBlock(b);
      WriteUint64(pos, now);
      assert file.data == (before + EncodeBlock(b)) + PutUint64(pos);
      EncodeSnoc(blocks, b);
    }

    /** Puts a block behind the others; a closed or a full segment is left as it is. */
    method Append(b: Block, now: int) returns (status: Status)
      requires file != null ==> Formed()
      modifies this, file
      ensures file == old(file)
      ensures status == if file == null then ErrNotOpen else if old(size) + |b| > maxSize then ErrSegmentFull else Ok
      ensures status != Ok ==> unchanged(this) && (file != null ==> unchanged(file))
      ensures status == Ok ==>
                && Formed()
                && blocks == old(blocks) + [b]
                && head == old(head)
                && file.modified == now
                && currentSize == (if old(currentSize) == 0 then |b| else old(currentSize))
      // the cached length is right afterwards exactly when b was not put behind an unread empty block
      ensures status == Ok && old(Cached()) ==>
                (Cached() <==> !(old(head < |blocks| && blocks[head] == []) && b != []))
    {
      if file == null {
        return ErrNotOpen;
      }
      if size + |b| > maxSize {
        return ErrSegmentFull;
      }
      WriteBlock(b, now);
      if currentSize == 0 {
        currentSize := |b|;
      }
      size := size + |b| + 8;
      assert (blocks + [b])[..head] == blocks[..head];
      blocks := blocks + [b];
      return Ok;
    }

    /** The block at the head; EOF exactly when every block was read. */
    method Current() returns (status: Status, b: Block)
      requires Formed()
      modifies this`cursor, this`currentSize
      ensures Formed()
      ensures status == if head == |blocks| then EOF else if |blocks[head]| > maxSize then ErrRecordSize else Ok
      ensures b == if status == Ok then blocks[head] else []
      ensures status == EOF ==> currentSize == old(currentSize)
      ensures status != EOF ==> Cached()
    {
      b := [];
      BoundaryAtEnd(blocks, head);
      if pos == size - 8 {
        return EOF, [];
      }
      var sz := ReadSizeAtHead();
      currentSize := sz;
      if sz > maxSize {
        return ErrRecordSize, [];
      }
      BlockOf(file.data, blocks, head);
      b := ReadBytes(sz);
      return Ok, b;
    }

    /**
     Moves the head past one block; answers EOF when no block is left after that,
     or none was left before.  With a wrong length cached, the head lands
     elsewhere, and whatever is found there is taken for a length.
     */
    method Advance(now: int) returns (status: Status)
      requires file != null ==> Formed() && currentSize >= 0
      modifies this, file
      ensures file == old(file)
      ensures file == null ==> status == ErrNotOpen && unchanged(this)
      ensures file != null && (old(Cached()) || old(head) == |old(blocks)|) ==>
                && Formed() && Cached()
                && blocks == old(blocks)
                && status == (if head == |blocks| then EOF else Ok)
                && head == (if old(head) == |blocks| then old(head) else old(head) + 1)
                && file.modified == (if old(head) == |blocks| then old(file.modified) else now)
      ensures file != null && !old(Cached()) && old(head) < |old(blocks)| ==>
                && blocks == old(blocks) && size == old(size) && file.modified == now
                && pos == old(pos) + 8 + old(currentSize)
                && file.data == Encode(blocks) + PutUint64(pos)
                && status == (if pos >= size || pos == size - 8 then EOF
                              else if pos + 8 > size then ErrShortRead else Ok)
                && (status == Ok ==> currentSize == Int64(Uint64(file.data[pos..pos + 8])))
    {
      if file == null {
        return ErrNotOpen;
      }
      BoundaryAtEnd(blocks, head);
      if pos == size - FOOTER_SIZE {
        currentSize := 0;
        return EOF;
      }
      ghost var right := Cached();
      MoveHead(now);
      status := Refresh(right);
    }

    /** Reads the length at the head again, wherever the head is. */
    method Refresh(ghost right: bool) returns (status: Status)
      requires file != null && pos >= 0 && size == |file.data| && (right ==> Formed())
      modifies this`cursor, this`currentSize
      ensures status == (if pos >= size || pos == size - 8 then EOF else if pos + 8 > size then ErrShortRead else Ok)
      ensures status == Ok ==> currentSize == Int64(Uint64(file.data[pos..pos + 8]))
      ensures right ==> Cached() && status == (if head == |blocks| then EOF else Ok)
    {
      if right {
        BoundaryAtEnd(blocks, head);
      }
      SeekToCurrent();
      if cursor >= |file.data| {
        return EOF;
      }
      if cursor + 8 > |file.data| {
        return ErrShortRead;
      }
      var sz := ReadUint64();
      currentSize := Int64(sz);
      if right {
        SizeAtHead(sz);
      }
      if pos == size - FOOTER_SIZE {
        currentSize := 0;
        return EOF;
      }
      return Ok;
    }

    /** The eight bytes at the head are the length of the head block. */
    lemma SizeAtHead(sz: nat)
      requires Formed() && pos + 8 <= |file.data| && sz == Uint64(file.data[pos..pos + 8])
      ensures head < |blocks| ==> sz == |blocks[head]| < TWO_63
    {
      if head < |blocks| {
        BlockOf(file.data, blocks, head);
      }
    }

    /**
     Writes an offset behind the head block into the footer, the right one
     exactly when the right length is cached.
     */
    method MoveHead(now: int)
      requires Formed() && currentSize >= 0 && head < |blocks|
      modifies this`cursor, this`pos, this`head, file
      ensures pos == old(pos) + 8 + old(currentSize) && file.modified == now
      ensures file.data == Encode(blocks) + PutUint64(pos)
      ensures old(Cached()) ==> Formed() && head == old(head) + 1
      ensures !old(Cached()) && pos < TWO_64 ==> !IsImage(file.data, blocks, old(head) + 1)
    {
      NextImage(file.data, blocks, head);
      SeekEnd(FOOTER_SIZE);
      var p := pos + currentSize + 8;
      WriteUint64(p, now);
      pos := p;
      assert file.data == Encode(blocks) + PutUint64(p);
      if Cached() {
        head := head + 1;
      } else if p < TWO_64 {
        WrongFooter(file.data, blocks, head + 1, p);
      }
    }

    /** Gives up the handle; what is on disk can be opened again with the same blocks and the same head. */
    method Close()
      requires file != null
      modifies this`file
      ensures file == null
      ensures old(Formed()) ==> IsImage(old(file).data, blocks, head)
    {
      file := null;
    }
  }

  lemma FooterOf(data: seq<byte>, bs: seq<Block>, h: nat)
    requires IsImage(data, bs, h)
    ensures |data| >= 8 && Uint64(data[|data| - 8..]) == Len(bs[..h])
  {
    assert data[|data| - 8..] == PutUint64(Len(bs[..h]));
    BoundaryAtEnd(bs, h);
    Uint64RoundTrip(Len(bs[..h]), data[|data| - 8..]);
  }

  lemma WrongFooter(data: seq<byte>, bs: seq<Block>, h: nat, p: nat)
    requires h <= |bs| && data == Encode(bs) + PutUint64(p) && p < TWO_64 && p != Len(bs[..h])
    ensures !IsImage(data, bs, h)
  {
    if IsImage(data, bs, h) {
      FooterOf(data, bs, h);
      assert data[|data| - 8..] == PutUint64(p);
      Uint64RoundTrip(p, data[|data| - 8..]);
    }
  }

  /** Rewriting the footer alone is enough to move the head past a block. */
  lemma NextImage(data: seq<byte>, bs: seq<Block>, h: nat)
    requires IsImage(data, bs, h) && h < |bs|
    ensures var p := Len(bs[..h]) + |bs[h]| + 8;
            p == Len(bs[..h + 1]) && IsImage(Overwrite(data, |data| - 8, PutUint64(p)), bs, h + 1)
  {
    EncodeAt(bs, h);
    var p := Len(bs[..h + 1]);
    assert Overwrite(data, |data| - 8, PutUint64(p)) == Encode(bs) + PutUint64(p);
  }

  lemma BlockOf(data: seq<byte>, bs: seq<Block>, h: nat)
    requires IsImage(data, bs, h) && h < |bs|
    ensures var p := Len(bs[..h]);
            && p + 8 + |bs[h]| <= |data| - 8
            && Uint64(data[p..p + 8]) == |bs[h]|
            && data[p + 8..p + 8 + |bs[h]|] == bs[h]
  {
    hide PutUint64, Uint64, Encode, Len;
    EncodeAt(bs, h);
    var p, n := Len(bs[..h]), |bs[h]|;
    var d := Encode(bs[..h]) + EncodeBlock(bs[h]);
    assert data[..p + 8 + n] == d;
    assert data[p..p + 8] == d[p..p + 8] == PutUint64(n);
    assert data[p + 8..p + 8 + n] == d[p + 8..] == bs[h];
    Uint64RoundTrip(n, data[p..p + 8]);
  }
}
