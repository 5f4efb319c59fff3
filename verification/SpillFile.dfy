/**
 The spill file and its only writer. A session's output is one endless byte stream,
 addressed by offset; the file keeps its newest part behind a 16-byte header that
 records the offset of the first byte kept. Rotation installs a new file under the
 same path, so a reader may go on holding the old one.
*/
module SpillFile {
  import opened Wrappers
  import opened Bytes
  import opened BigEndian

  const MAGIC: nat := 0x4449524A
  const HEADER_SIZE: nat := 16

  /** Stream offsets are unsigned 64-bit. */
  predicate Offset64(n: nat) {
    n < Pow256(8)
  }

  function Header(base: nat): (h: seq<Byte>)
    ensures |h| == HEADER_SIZE
  {
    Put(MAGIC, 4) + Put(1, 4) + Put(base, 8)
  }

  /** A spill file holding `kept`, whose first byte is the stream's byte `base`. */
  function Image(base: nat, kept: seq<Byte>): seq<Byte> {
    Header(base) + kept
  }

  /** The base offset and byte count a file claims, if its header is ours. */
  function Recover(content: seq<Byte>): Option<(nat, nat)> {
    if |content| < HEADER_SIZE || Get(content[..4]) != MAGIC then None
    else Some((Get(content[8..16]), |content| - HEADER_SIZE))
  }

  /** The header byte by byte: the letters DIRJ, version 1, and the base's eight digits in
      base 256, the most significant first. */
  lemma HeaderBytes(base: nat, i: nat)
    requires i < 8
    ensures Header(base)[..8] == [0x44, 0x49, 0x52, 0x4A, 0, 0, 0, 1] && Header(base)[8 + i] == Digit(base, 7 - i)
  {
    PutFour(MAGIC);
    PutFour(1);
    PutDigit(base, 8, i);
    assert Header(base)[8 + i] == Put(base, 8)[i];
  }

  /** What matters of a spill file: its header is ours, whatever the version word says,
      and what follows is `kept`, from the stream's byte `base` on. */
  ghost predicate Holds(content: seq<Byte>, base: nat, kept: seq<Byte>) {
    Recover(content) == Some((base, |kept|)) && content[HEADER_SIZE..] == kept
  }

  /** Reopening finds the base and the bytes that were written. */
  lemma RecoverImage(base: nat, kept: seq<Byte>)
    requires Offset64(base)
    ensures Holds(Image(base, kept), base, kept)
  {
    var c := Image(base, kept);
    assert c[..4] == Put(MAGIC, 4) && c[8..16] == Put(base, 8);
    Widths();
    GetPut(MAGIC, 4);
    GetPut(base, 8);
  }

  lemma SkipHeader(content: seq<Byte>, base: nat, kept: seq<Byte>, n: nat)
    requires n <= |kept| && Holds(content, base, kept)
    ensures HEADER_SIZE + n <= |content| && content[HEADER_SIZE + n..] == kept[n..]
  {
  }

  /** The file a rotation installs: a new header, and all but the first `drop` bytes. */
  lemma Rotated(content: seq<Byte>, h: seq<Byte>, base: nat, drop: nat)
    requires base + drop <= |h| && Offset64(|h|) && Holds(content, base, h[base..])
    ensures HEADER_SIZE + drop <= |content| && |content[HEADER_SIZE + drop..]| == |h| - base - drop
    ensures Holds(Header(base + drop) + content[HEADER_SIZE + drop..], base + drop, h[base + drop..])
  {
    SkipHeader(content, base, h[base..], drop);
    assert h[base..][drop..] == h[base + drop..];
    RecoverImage(base + drop, h[base + drop..]);
  }

  class Inode {
    var content: seq<Byte>

    constructor (content: seq<Byte>)
      ensures this.content == content
    {
      this.content := content;
    }
  }

  /** The directory entry the writer and its readers share. */
  class LogPath {
    var inode: Inode?

    constructor ()
      ensures inode == null
    {
      inode := null;
    }
  }

  class HolderOutputLog {
    const path: LogPath
    const diskCapacity: nat
    var handle: Inode
    var baseOffset: nat
    var fileBytes: nat
    var tailOffset: nat
    /** Every byte ever appended to this session's stream. */
    ghost var history: seq<Byte>

    ghost predicate Valid()
      reads this, path, handle
    {
      && path.inode == handle
      && baseOffset <= |history| && Offset64(|history|)
      && tailOffset == |history| && fileBytes == |history| - baseOffset
      && Holds(handle.content, baseOffset, history[baseOffset..])
    }

    /** Adopts the file at the path, or starts an empty stream. `dropped` stands for the
        bytes an adopted file no longer has. */
    constructor (path: LogPath, diskCapacity: nat, ghost dropped: seq<Byte>)
      requires path.inode != null && Recover(path.inode.content).Some? ==>
                 |dropped| == Recover(path.inode.content).value.0 &&
                 Offset64(|dropped| + Recover(path.inode.content).value.1)
      modifies path
      ensures Valid() && this.path == path && this.diskCapacity == diskCapacity
      ensures var adopted := old(path.inode) != null && Recover(old(path.inode.content)).Some?;
              history == (if adopted then dropped + old(path.inode.content)[HEADER_SIZE..] else []) &&
              (if adopted then handle == old(path.inode) else fresh(handle))
    {
      this.path := path;
      this.diskCapacity := diskCapacity;
      var found := if path.inode == null then None else Recover(path.inode.content);
      var base, bytes, file := 0, 0, path.inode;
      if found.Some? {
        base, bytes := found.value.0, found.value.1;
      } else {
        file := new Inode(Header(0));
      }
      baseOffset, fileBytes, tailOffset := base, bytes, base + bytes;
      handle := file;
      history := (if found.Some? then dropped else []) + file.content[HEADER_SIZE..];
      new;
      path.inode := file;
      RecoverImage(0, []);
      assert Header(0) == Image(0, []);
      assert history[base..] == file.content[HEADER_SIZE..];
    }

    /** Offsets are handed out without gaps, and rotation never changes them. */
    method Append(data: seq<Byte>) returns (start: nat, end: nat)
      requires Valid() && Offset64(|history| + |data|)
      modifies this, handle, path
      ensures Valid() && history == old(history) + data
      ensures start == |old(history)| && end == |history|
      ensures fileBytes <= diskCapacity || data == []
      ensures baseOffset == old(baseOffset) || |history| - baseOffset == diskCapacity / 2
      ensures old(baseOffset) <= baseOffset
      // A reader that still holds the replaced file has everything up to now.
      ensures Holds(old(handle).content, old(baseOffset), history[old(baseOffset)..])
      ensures if baseOffset == old(baseOffset) then handle == old(handle) else fresh(handle)
    {
      start, end := tailOffset, tailOffset;
      if data == [] {
        assert history + data == history;
        return;
      }
      GrowSlice(handle.content, history, data, baseOffset);
      handle.content := handle.content + data;
      history := history + data;
      assert Holds(handle.content, baseOffset, history[baseOffset..]);
      fileBytes := fileBytes + |data|;
      tailOffset := tailOffset + |data|;
      if fileBytes > diskCapacity { RotateToHalf(); }
      end := tailOffset;
    }

    method RotateToHalf()
      requires Valid() && fileBytes > diskCapacity
      modifies this, path
      ensures Valid() && history == old(history) && fresh(handle)
      ensures fileBytes == diskCapacity / 2 && baseOffset > old(baseOffset)
    {
      var keep := diskCapacity / 2;
      var drop := fileBytes - keep;
      Rotated(handle.content, history, baseOffset, drop);
      var kept := handle.content[HEADER_SIZE + drop..];
      var newBase := baseOffset + drop;
      var file := new Inode(Header(newBase) + kept);
      path.inode := file;
      baseOffset := newBase;
      fileBytes := |kept|;
      handle := file;
    }
  }

  lemma GrowTail(h: seq<Byte>, data: seq<Byte>, base: nat)
    requires base <= |h|
    ensures (h + data)[base..] == h[base..] + data
  {
  }

  lemma GrowSlice(content: seq<Byte>, h: seq<Byte>, data: seq<Byte>, base: nat)
    requires base <= |h| && Holds(content, base, h[base..])
    ensures (h + data)[base..] == h[base..] + data
    ensures Holds(content + data, base, (h + data)[base..])
  {
    GrowTail(h, data, base);
    assert (content + data)[..4] == content[..4] && (content + data)[8..16] == content[8..16];
    assert (content + data)[HEADER_SIZE..] == content[HEADER_SIZE..] + data;
  }
}
