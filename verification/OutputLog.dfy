/**
 The daemon's view of one session's output. In writer mode the log owns the spill file
 and keeps the newest bytes in a ring as well; in read-only mode another process writes
 and rotates the file, and the log sees what its file handle shows it.
*/
module OutputLogs {
  import opened Wrappers
  import opened Bytes
  import opened BigEndian
  import opened SpillFile
  import opened SyncPoints

  function Min(a: nat, b: nat): nat {
    if a <= b then a else b
  }

  function Max(a: nat, b: nat): nat {
    if a <= b then b else a
  }

  class OutputLog {
    const path: LogPath
    const ringCapacity: nat
    const diskCapacity: nat
    const readOnly: bool
    var tailOffset: nat
    var ringStartOffset: nat
    var ring: seq<Byte>
    var fileHandle: Inode?
    var readHandle: Inode?
    var fileBaseOffset: nat
    var fileBytes: nat
    var syncPoints: seq<nat>
    var carry: seq<Byte>
    /** The tail when this log was opened: resets are only noticed from here on. */
    ghost const openedAt: nat

    /** Writer mode over the stream `h`. */
    ghost predicate Writing(h: seq<Byte>)
      reads this, path, fileHandle
    {
      && !readOnly && fileHandle != null && path.inode == fileHandle
      && (readHandle == null || readHandle == fileHandle)
      && tailOffset == |h| && Offset64(|h|)
      && fileBaseOffset <= |h| && fileBytes == |h| - fileBaseOffset
      && Holds(fileHandle.content, fileBaseOffset, h[fileBaseOffset..])
      && ringStartOffset <= |h| && ring == h[ringStartOffset..]
      && openedAt <= |h| && carry == h[CarryStart(h, openedAt)..]
      && (diskCapacity >= 6 ==> fileBaseOffset <= CarryStart(h, openedAt))
      && Remembers(h, |h|)
    }

    /** Read-only mode over the stream `h`: the file behind the handle holds at least
        `fileBaseOffset..tailOffset` of it. */
    ghost predicate Reading(h: seq<Byte>)
      reads this, path, readHandle, path.inode
    {
      && readOnly && fileBaseOffset <= tailOffset <= |h| && Offset64(|h|)
      && fileBytes == tailOffset - fileBaseOffset
      && Source() != null && Shows(Source().content, fileBaseOffset, tailOffset, h)
      && ring == [] && syncPoints == []
    }

    /** The file a read would go to. */
    function Source(): Inode?
      reads this, path
    {
      if readHandle != null then readHandle else path.inode
    }

    /** Opens the log on a spill file of the stream `h`, or starts one. */
    constructor (path: LogPath, ringCapacity: nat, diskCapacity: nat, readOnly: bool, ghost h: seq<Byte>)
      requires path.inode != null && Recover(path.inode.content).Some? ==>
                 var base := Recover(path.inode.content).value.0;
                 base <= |h| && Offset64(|h|) && Holds(path.inode.content, base, h[base..])
      requires path.inode == null || Recover(path.inode.content).None? ==> h == []
      modifies path
      ensures this.path == path && this.ringCapacity == ringCapacity && this.diskCapacity == diskCapacity
      ensures this.readOnly == readOnly
      ensures if readOnly then Reading(h) else Writing(h)
      ensures tailOffset == |h| && ringStartOffset == |h|
    {
      this.path := path;
      this.ringCapacity := ringCapacity;
      this.diskCapacity := diskCapacity;
      this.readOnly := readOnly;
      var found := if path.inode == null then None else Recover(path.inode.content);
      var base, bytes, file := 0, 0, path.inode;
      if found.Some? {
        base, bytes := found.value.0, found.value.1;
      } else {
        file := new Inode(Header(0));
        RecoverImage(0, []);
        assert Header(0) == Image(0, []);
      }
      fileBaseOffset, fileBytes := base, bytes;
      tailOffset, ringStartOffset := base + bytes, base + bytes;
      readHandle := if readOnly && found.Some? then file else null;
      fileHandle := if readOnly then null else file;
      ring, syncPoints, carry := [], [], [];
      openedAt := base + bytes;
      new;
      path.inode := file;
      assert h[|h|..] == [] && Pow256(8) > 0;
      assert Holds(file.content, base, h[base..]);
      HoldsShows(file.content, base, h);
    }

    // ------------------------------------------------------------------ writing

    method Append(data: seq<Byte>, ghost h: seq<Byte>) returns (start: nat, end: nat)
      requires Writing(h) && Offset64(|h| + |data|)
      modifies this, path, fileHandle
      ensures Writing(h + data)
      ensures start == |h| && end == |h| + |data|
      ensures data != [] ==> |ring| <= ringCapacity && fileBytes <= diskCapacity
    {
      start, end := tailOffset, tailOffset;
      if data == [] {
        assert h + data == h;
        return;
      }
      ScanForSyncPoints(data, start, h);
      GrowTail(h, data, ringStartOffset);
      ring := ring + data;
      if |ring| > ringCapacity {
        var drop := |ring| - ringCapacity;
        ring := ring[drop..];
        ringStartOffset := ringStartOffset + drop;
      }
      tailOffset := tailOffset + |data|;
      end := tailOffset;
      AppendToDisk(data, h);
    }

    /** The remembered points are the newest resets that begin below `front`. */
    ghost predicate Remembers(h: seq<Byte>, front: nat)
      reads this
    {
      diskCapacity >= 6 ==> syncPoints == Newest(Resets(h, openedAt, front), fileBaseOffset, MAX_POINTS)
    }

    method ScanForSyncPoints(data: seq<Byte>, chunkStart: nat, ghost h: seq<Byte>)
      requires openedAt <= |h| && chunkStart == |h| && data != []
      requires carry == h[CarryStart(h, openedAt)..] && Remembers(h, |h|)
      requires diskCapacity >= 6 ==> fileBaseOffset <= CarryStart(h, openedAt)
      modifies this`syncPoints, this`carry
      ensures carry == (h + data)[CarryStart(h + data, openedAt)..]
      ensures Remembers(h + data, |h + data|)
    {
      // The last bytes of the previous chunk are scanned again: a sequence may straddle.
      var carryCount := |carry|;
      var bytes := carry + data;
      BeforeScan(data, h);
      carry := bytes[if |bytes| <= 3 then 0 else |bytes| - 3..];
      ScanBytes(bytes, chunkStart, carryCount, h + data, Resume(h, openedAt));
    }

    method ScanBytes(bytes: seq<Byte>, chunkStart: nat, carryCount: nat, ghost all: seq<Byte>, ghost resume: nat)
      requires bytes != [] && carryCount <= chunkStart && chunkStart - carryCount + |bytes| == |all|
      requires SameResetsFrom(bytes, all, chunkStart - carryCount)
      requires chunkStart - carryCount <= resume <= |all|
      requires forall p :: chunkStart - carryCount <= p < resume && ResetAt(all, p) ==> p + 1 == resume
      requires diskCapacity >= 6 ==> fileBaseOffset <= chunkStart - carryCount
      requires openedAt <= chunkStart - carryCount && Remembers(all, resume)
      modifies this`syncPoints
      ensures Remembers(all, |all|)
    {
      var i := 0;
      ghost var from: nat := chunkStart - carryCount;
      while i < |bytes| - 1
        invariant 0 <= i <= |bytes| - 1
        invariant Remembers(all, Max(from + i, resume))
      {
        var found := BeginsReset(bytes, i);
        assert found == ResetAt(all, from + i);
        if found {
          var signedOffset: int := chunkStart + (i - carryCount);
          Remember(if signedOffset < 0 then 0 else signedOffset, all, resume);
        } else {
          NothingBegins(all, openedAt, from + i, resume);
        }
        i := i + 1;
      }
      NothingBegins(all, openedAt, |all| - 1, resume);
    }

    lemma BeforeScan(data: seq<Byte>, h: seq<Byte>)
      requires openedAt <= |h| && carry == h[CarryStart(h, openedAt)..] && Remembers(h, |h|) && data != []
      ensures var from, bytes, all, resume := CarryStart(h, openedAt), carry + data, h + data, Resume(h, openedAt);
              && from + |carry| == |h| && from + |bytes| == |all| && from <= resume <= |all|
              && SameResetsFrom(bytes, all, from)
              && bytes[if |bytes| <= 3 then 0 else |bytes| - 3..] == all[CarryStart(all, openedAt)..]
              && (forall p :: from <= p < resume && ResetAt(all, p) ==> p + 1 == resume)
              && Remembers(all, resume)
    {
      CarryGrows(h, data, openedAt);
      ResetsSoFar(h, data, openedAt);
      ResetsInChunk(h + data, CarryStart(h, openedAt));
      forall p | CarryStart(h, openedAt) <= p < Resume(h, openedAt) && ResetAt(h + data, p)
        ensures p + 1 == Resume(h, openedAt)
      {
        SameBefore(h, data, openedAt, p);
      }
    }

    static method BeginsReset(bytes: seq<Byte>, i: nat) returns (found: bool)
      requires i < |bytes| - 1
      ensures found == ResetAt(bytes, i)
    {
      found := false;
      if bytes[i] == ESC {
        if bytes[i + 1] == 0x63 {
          found := true;
        } else if i + 3 < |bytes| && bytes[i + 1] == 0x5B && bytes[i + 2] == 0x32 && bytes[i + 3] == 0x4A {
          found := true;
        }
      }
    }

    /** A reset already noticed by the previous scan is not recorded twice. */
    method Remember(offset: nat, ghost all: seq<Byte>, ghost resume: nat)
      requires openedAt <= offset && ResetAt(all, offset) && (offset < resume ==> offset + 1 == resume)
      requires diskCapacity >= 6 ==> fileBaseOffset <= offset
      requires Remembers(all, Max(offset, resume))
      modifies this`syncPoints
      ensures Remembers(all, Max(offset + 1, resume))
    {
      if diskCapacity >= 6 {
        if offset < resume {
          RecordSeen(all, openedAt, fileBaseOffset, offset);
        } else {
          RecordNew(all, openedAt, fileBaseOffset, offset);
        }
      }
      if syncPoints == [] || syncPoints[|syncPoints| - 1] != offset {
        syncPoints := syncPoints + [offset];
        if |syncPoints| > MAX_POINTS {
          syncPoints := syncPoints[|syncPoints| - MAX_POINTS..];
        }
      }
      assert syncPoints == Record(old(syncPoints), offset);
    }

    method AppendToDisk(data: seq<Byte>, ghost h: seq<Byte>)
      requires !readOnly && fileHandle != null && path.inode == fileHandle
      requires readHandle == null || readHandle == fileHandle
      requires fileBaseOffset <= |h| && fileBytes == |h| - fileBaseOffset
      requires Holds(fileHandle.content, fileBaseOffset, h[fileBaseOffset..])
      requires openedAt <= |h| && Offset64(|h + data|)
      requires diskCapacity >= 6 ==> fileBaseOffset <= CarryStart(h, openedAt)
      requires Remembers(h + data, |h + data|)
      modifies this`fileBytes, this`fileBaseOffset, this`fileHandle, this`readHandle, this`syncPoints, path, fileHandle
      ensures fileHandle != null && path.inode == fileHandle && (readHandle == null || readHandle == fileHandle)
      ensures fileBaseOffset <= |h + data| && fileBytes == |h + data| - fileBaseOffset
      ensures Holds(fileHandle.content, fileBaseOffset, (h + data)[fileBaseOffset..])
      ensures fileBytes <= diskCapacity
      ensures diskCapacity >= 6 ==> fileBaseOffset <= CarryStart(h + data, openedAt)
      ensures Remembers(h + data, |h + data|)
    {
      GrowSlice(fileHandle.content, h, data, fileBaseOffset);
      fileHandle.content := fileHandle.content + data;
      fileBytes := fileBytes + |data|;
      if fileBytes > diskCapacity {
        TruncateToHalf(h + data);
      }
    }

    /** Rewrites the spill file keeping only the newest half. */
    method TruncateToHalf(ghost h: seq<Byte>)
      requires fileHandle != null && path.inode == fileHandle && fileBytes > diskCapacity
      requires fileBaseOffset <= |h| && fileBytes == |h| - fileBaseOffset
      requires Holds(fileHandle.content, fileBaseOffset, h[fileBaseOffset..])
      requires openedAt <= |h| && Offset64(|h|)
      requires Remembers(h, |h|)
      modifies this`fileBytes, this`fileBaseOffset, this`fileHandle, this`readHandle, this`syncPoints, path
      ensures fileHandle != null && path.inode == fileHandle && readHandle == null
      ensures fileBytes == diskCapacity / 2 && fileBaseOffset == |h| - fileBytes
      ensures Holds(fileHandle.content, fileBaseOffset, h[fileBaseOffset..])
      ensures diskCapacity >= 6 ==> fileBaseOffset <= CarryStart(h, openedAt)
      ensures Remembers(h, |h|)
    {
      readHandle := null;
      var keep := diskCapacity / 2;
      var dropBytes := fileBytes - keep;
      PointsRebase(h, openedAt, fileBaseOffset, fileBaseOffset + dropBytes);
      InstallTail(dropBytes, h);
      syncPoints := RemoveBelow(syncPoints, fileBaseOffset);
    }

    /** Puts a file without the first `dropBytes` in place of the current one. */
    method InstallTail(dropBytes: nat, ghost h: seq<Byte>)
      requires fileHandle != null && fileBaseOffset + dropBytes <= |h| && Offset64(|h|)
      requires Holds(fileHandle.content, fileBaseOffset, h[fileBaseOffset..])
      modifies this`fileBytes, this`fileBaseOffset, this`fileHandle, path
      ensures fileHandle != null && path.inode == fileHandle
      ensures fileBaseOffset == old(fileBaseOffset) + dropBytes && fileBytes == |h| - fileBaseOffset
      ensures Holds(fileHandle.content, fileBaseOffset, h[fileBaseOffset..])
    {
      Rotated(fileHandle.content, h, fileBaseOffset, dropBytes);
      var kept := fileHandle.content[HEADER_SIZE + dropBytes..];
      var newBase := fileBaseOffset + dropBytes;
      var file := new Inode(Header(newBase) + kept);
      path.inode := file;
      fileBaseOffset := newBase;
      fileBytes := |kept|;
      fileHandle := file;
    }

    // ------------------------------------------------------------------ reading

    /** Where a read from `fromOffset` really starts: clamped to what is available. */
    function ClampedStart(fromOffset: nat): nat
      reads this
    {
      Max(fromOffset, Min(ringStartOffset, fileBaseOffset))
    }

    /** The one read the code cannot survive: its end lies below the file's base, and
        the byte count is an unsigned subtraction. */
    predicate Underflows(fromOffset: nat, maxBytes: nat)
      reads this
    {
      readOnly && ClampedStart(fromOffset) < tailOffset &&
      Min(tailOffset, ClampedStart(fromOffset) + maxBytes) < fileBaseOffset
    }

    /** Up to `maxBytes` of the stream from `fromOffset`, or from the oldest byte still
        available. */
    method Read(fromOffset: nat, maxBytes: nat, ghost h: seq<Byte>) returns (offset: nat, data: seq<Byte>)
      requires Writing(h) || Reading(h)
      requires !Underflows(fromOffset, maxBytes)
      modifies this`readHandle
      ensures old(Writing(h)) ==> Writing(h)
      ensures old(Reading(h)) ==> Reading(h)
      ensures readHandle == old(readHandle) || readHandle == path.inode
      ensures var o := ClampedStart(fromOffset);
              if tailOffset <= o then offset == tailOffset && data == []
              else var start := if readOnly then Max(o, fileBaseOffset) else o;
                   offset == start && start <= Min(tailOffset, o + maxBytes) &&
                   data == h[start..Min(tailOffset, o + maxBytes)]
    {
      var oldestAvailable := Min(ringStartOffset, fileBaseOffset);
      var start := Max(fromOffset, oldestAvailable);
      if start >= tailOffset { return tailOffset, []; }
      var end := Min(tailOffset, start + maxBytes);
      if !readOnly && start >= ringStartOffset && end - ringStartOffset <= |ring| {
        var lower := start - ringStartOffset;
        var upper := end - ringStartOffset;
        RingSlice(ring, h, ringStartOffset, lower, upper);
        return start, ring[lower..upper];
      }
      offset, data := ReadFromDisk(start, end, h);
    }

    method ReadFromDisk(fromOffset: nat, toOffset: nat, ghost h: seq<Byte>) returns (offset: nat, data: seq<Byte>)
      requires Writing(h) || Reading(h)
      requires fileBaseOffset <= toOffset <= tailOffset && fromOffset <= toOffset
      modifies this`readHandle
      ensures readHandle == old(Source()) && readHandle != null
      ensures offset == Max(fromOffset, fileBaseOffset) <= toOffset && data == h[offset..toOffset]
    {
      var handle := Reader();
      offset := Max(fromOffset, fileBaseOffset);
      var filePos := HEADER_SIZE + (offset - fileBaseOffset);
      var count := toOffset - offset;
      if !readOnly {
        HoldsShows(handle.content, fileBaseOffset, h);
      }
      ShowsSlice(handle.content, fileBaseOffset, tailOffset, h, offset, toOffset);
      data := handle.content[filePos..filePos + count];
    }

    /** The cached read handle, opened on first use. */
    method Reader() returns (handle: Inode)
      requires Source() != null
      modifies this`readHandle
      ensures handle == old(Source()) && readHandle == handle
    {
      if readHandle == null {
        readHandle := path.inode;
      }
      handle := readHandle;
    }

    method InvalidateReadHandle()
      modifies this`readHandle
      ensures readHandle == null
    {
      readHandle := null;
    }

    /** Takes over the base and length the file behind the handle has now; a file that is
        missing, too short or not ours is left alone. `h` is the stream a proper file shows. */
    method RefreshFromDisk(ghost h: seq<Byte>) returns (changed: bool)
      modifies this`readHandle, this`fileBaseOffset, this`fileBytes, this`tailOffset, this`syncPoints
      ensures var found := if readOnly && old(Source()) != null then Recover(old(Source()).content) else None;
              if found.None? then
                !changed && fileBaseOffset == old(fileBaseOffset) && fileBytes == old(fileBytes) &&
                tailOffset == old(tailOffset) && syncPoints == old(syncPoints)
              else
                fileBaseOffset == found.value.0 && fileBytes == found.value.1 &&
                tailOffset == fileBaseOffset + fileBytes && syncPoints == RemoveBelow(old(syncPoints), fileBaseOffset) &&
                (changed <==> tailOffset != old(tailOffset) || fileBaseOffset != old(fileBaseOffset))
      ensures readHandle == if readOnly then old(Source()) else old(readHandle)
      ensures readOnly && ring == [] && old(syncPoints) == [] && Offset64(|h|) &&
                old(Source()) != null && ImageOf(old(Source()).content, h) ==>
                  Reading(h) && Recover(old(Source()).content).Some?
    {
      changed := false;
      if !readOnly || Source() == null {
        return;
      }
      var handle := Reader();
      if |handle.content| < HEADER_SIZE { return; }
      var header := handle.content[..HEADER_SIZE];
      assert header[..4] == handle.content[..4] && header[8..16] == handle.content[8..16];
      if Get(header[..4]) != MAGIC { return; }
      var newBase := Get(header[8..16]);
      var newBytes := |handle.content| - HEADER_SIZE;
      var newTail := newBase + newBytes;
      changed := newTail != tailOffset || newBase != fileBaseOffset;
      fileBaseOffset := newBase;
      fileBytes := newBytes;
      tailOffset := newTail;
      syncPoints := RemoveBelow(syncPoints, newBase);
      if ImageOf(handle.content, h) {
        ImageShows(handle.content, h);
      }
    }

    /** The newest reset within the budget, else that many bytes back from the tail. */
    method PreferredReplayStart(budget: nat) returns (start: nat)
      ensures var floor := if tailOffset > budget then tailOffset - budget else 0;
              if exists p :: p in syncPoints && floor <= p < tailOffset
              then exists k :: 0 <= k < |syncPoints| && start == syncPoints[k] && floor <= start < tailOffset &&
                     forall j :: k < j < |syncPoints| ==> !(floor <= syncPoints[j] < tailOffset)
              else start == Max(floor, Min(ringStartOffset, Min(fileBaseOffset, tailOffset)))
    {
      var floor := if tailOffset > budget then tailOffset - budget else 0;
      var k := |syncPoints|;
      while k > 0
        invariant 0 <= k <= |syncPoints|
        invariant forall j :: k <= j < |syncPoints| ==> !(floor <= syncPoints[j] < tailOffset)
      {
        k := k - 1;
        if floor <= syncPoints[k] < tailOffset {
          assert syncPoints[k] in syncPoints;
          return syncPoints[k];
        }
      }
      return Max(floor, Min(ringStartOffset, Min(fileBaseOffset, tailOffset)));
    }
  }

  /** The file holds the stream's bytes from `base` at least up to `tail`. */
  ghost predicate Shows(content: seq<Byte>, base: nat, tail: nat, h: seq<Byte>)
    requires base <= tail <= |h|
  {
    HEADER_SIZE + (tail - base) <= |content| && content[HEADER_SIZE..HEADER_SIZE + (tail - base)] == h[base..tail]
  }

  /** A spill file of the stream `h`, as it was at some moment. */
  ghost predicate ImageOf(content: seq<Byte>, h: seq<Byte>) {
    exists base, e :: 0 <= base <= e <= |h| && Holds(content, base, h[base..e])
  }

  lemma PointsRebase(h: seq<Byte>, since: nat, base: nat, newBase: nat)
    requires base <= newBase
    ensures RemoveBelow(Newest(Resets(h, since, |h|), base, MAX_POINTS), newBase)
            == Newest(Resets(h, since, |h|), newBase, MAX_POINTS)
  {
    ResetsExactly(h, since, |h|);
    NewestRebase(Resets(h, since, |h|), base, newBase, MAX_POINTS);
  }

  lemma HoldsShows(content: seq<Byte>, base: nat, h: seq<Byte>)
    requires base <= |h| && Holds(content, base, h[base..])
    ensures Shows(content, base, |h|, h)
  {
    assert content[HEADER_SIZE..HEADER_SIZE + (|h| - base)] == content[HEADER_SIZE..];
    assert h[base..|h|] == h[base..];
  }

  /** A reader that takes the header at its word sees the stream. */
  lemma ImageShows(content: seq<Byte>, h: seq<Byte>)
    requires ImageOf(content, h)
    ensures Recover(content).Some?
    ensures var (base, bytes) := Recover(content).value; base + bytes <= |h| && Shows(content, base, base + bytes, h)
  {
    var base, e :| 0 <= base <= e <= |h| && Holds(content, base, h[base..e]);
    assert content[HEADER_SIZE..HEADER_SIZE + (e - base)] == content[HEADER_SIZE..];
  }

  lemma ShowsSlice(content: seq<Byte>, base: nat, tail: nat, h: seq<Byte>, lo: nat, hi: nat)
    requires base <= lo <= hi <= tail <= |h| && Shows(content, base, tail, h)
    ensures HEADER_SIZE + (hi - base) <= |content|
    ensures content[HEADER_SIZE + (lo - base)..HEADER_SIZE + (hi - base)] == h[lo..hi]
  {
    SliceOfSlice(content, HEADER_SIZE, HEADER_SIZE + (tail - base), lo - base, hi - base);
    SliceOfSlice(h, base, tail, lo - base, hi - base);
  }

  /** A window on the stream shows the same resets. */
  ghost predicate SameResetsFrom(bytes: seq<Byte>, all: seq<Byte>, from: nat) {
    forall i: nat :: i < |bytes| ==> ResetAt(bytes, i) == ResetAt(all, from + i)
  }

  lemma ResetsInChunk(all: seq<Byte>, from: nat)
    requires from <= |all|
    ensures SameResetsFrom(all[from..], all, from)
  {
  }

  lemma RingSlice(ring: seq<Byte>, h: seq<Byte>, ringStart: nat, lower: nat, upper: nat)
    requires ringStart <= |h| && ring == h[ringStart..] && lower <= upper <= |ring|
    ensures ring[lower..upper] == h[ringStart + lower..ringStart + upper]
  {
    SliceOfSlice(h, ringStart, |h|, lower, upper);
    assert h[ringStart..|h|] == h[ringStart..];
  }

  lemma CarryGrows(h: seq<Byte>, data: seq<Byte>, since: nat)
    requires since <= |h|
    ensures var bytes := h[CarryStart(h, since)..] + data;
            && bytes == (h + data)[CarryStart(h, since)..]
            && bytes[if |bytes| <= 3 then 0 else |bytes| - 3..] == (h + data)[CarryStart(h + data, since)..]
  {
  }

  lemma NothingBegins(all: seq<Byte>, since: nat, at: nat, r: nat)
    requires !ResetAt(all, at)
    ensures Resets(all, since, Max(at, r)) == Resets(all, since, Max(at + 1, r))
  {
  }

  /** In writer mode, whatever was asked, the read succeeds; in read-only mode it fails
      only when the file was rotated past the requested range and past the tail at
      which the log was opened. */
  lemma UnderflowExactly(log: OutputLog, h: seq<Byte>, fromOffset: nat, maxBytes: nat)
    requires log.Writing(h) || log.Reading(h)
    ensures log.Underflows(fromOffset, maxBytes) <==>
            log.readOnly && log.ringStartOffset < log.fileBaseOffset &&
            Max(fromOffset, log.ringStartOffset) + maxBytes < log.fileBaseOffset
  {
  }
}
