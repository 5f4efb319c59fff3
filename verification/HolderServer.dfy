/**
 The log side of one holder incarnation: it marks where its child's output begins, writes
 what the child writes, and ends with one exit marker.
*/
module HolderServers {
  import opened Wrappers
  import opened Bytes
  import opened Streaming
  import opened ExitMarker
  import opened SpillFile

  class HolderServer {
    const prefix: MarkerPrefix
    const log: HolderOutputLog
    var epochOffset: nat
    var finished: bool
    /** The PTY read source, until it is cancelled. */
    var readSource: bool
    /** The stream before this incarnation, what its child wrote, and the exit it reported. */
    ghost var prior: seq<Byte>
    ghost var child: seq<Byte>
    ghost var exit: Option<seq<Byte>>

    ghost predicate Valid()
      reads this, log, log.path, log.handle
    {
      && log.Valid()
      && epochOffset == |prior|
      && finished == exit.Some?
      && (finished ==> !readSource)
      && log.history == prior + child + Ending(prefix, exit)
    }

    constructor (prefix: MarkerPrefix, log: HolderOutputLog)
      requires log.Valid()
      ensures Valid() && this.prefix == prefix && this.log == log
      ensures prior == log.history && child == [] && exit == None && readSource
    {
      this.prefix, this.log := prefix, log;
      epochOffset := log.tailOffset;
      finished, readSource := false, true;
      prior, child, exit := log.history, [], None;
      new;
      assert log.history == prior + child + Ending(prefix, exit);
    }

    /** The PTY is readable: `chunks` is what successive reads return until it would block. */
    method Readable(chunks: seq<seq<Byte>>)
      requires Valid() && Offset64(|log.history| + |Concat(chunks)|)
      modifies this, log, log.path, log.handle
      ensures Valid() && prior == old(prior) && exit == old(exit)
      ensures child == old(child) + (if old(readSource) then Concat(chunks) else [])
    {
      if readSource { DrainPTY(chunks); }
      assert old(child) + [] == old(child);
    }

    method DrainPTY(chunks: seq<seq<Byte>>)
      requires Valid() && !exit.Some? && Offset64(|log.history| + |Concat(chunks)|)
      modifies this, log, log.path, log.handle
      ensures Valid() && prior == old(prior) && exit == old(exit) && finished == old(finished)
      ensures readSource == old(readSource) && child == old(child) + Concat(chunks)
      ensures log.handle == old(log.handle) || fresh(log.handle)
    {
      var left := chunks;
      while left != []
        invariant Valid() && prior == old(prior) && exit == old(exit) && finished == old(finished)
        invariant readSource == old(readSource) && child + Concat(left) == old(child) + Concat(chunks)
        invariant log.handle == old(log.handle) || fresh(log.handle)
        invariant |log.history| + |Concat(left)| == |old(log.history)| + |Concat(chunks)|
        decreases |left|
      {
        ghost var before := child;
        var _, _ := log.Append(left[0]);
        child := child + left[0];
        AppendInMiddle(prior, before, left[0]);
        Assoc(before, left[0], Concat(left[1..]));
        left := left[1..];
      }
      Neutral(child);
    }

    /** The child is gone. What it left in the PTY is logged first, the marker last; nothing
        is ever written after it. */
    method Finish(payload: seq<Byte>, leftover: seq<seq<Byte>>)
      requires Valid()
      requires Offset64(|log.history| + |Concat(leftover)| + |Encode(prefix, payload)|)
      modifies this, log, log.path, log.handle
      ensures Valid() && finished && prior == old(prior)
      ensures old(finished) ==> log.history == old(log.history) && exit == old(exit) && child == old(child)
      ensures !old(finished) ==> exit == Some(payload) && child == old(child) + Concat(leftover)
    {
      if finished { return; }
      DrainPTY(leftover);
      ghost var before := log.history;
      var _, _ := log.Append(Encode(prefix, payload));
      exit := Some(payload);
      Neutral(prior + child);
      finished := true;
      readSource := false;
    }
  }

  lemma AppendInMiddle(a: seq<Byte>, b: seq<Byte>, c: seq<Byte>)
    ensures (a + b + []) + c == a + (b + c) + []
  {
  }

  function Ending(prefix: MarkerPrefix, exit: Option<seq<Byte>>): seq<Byte> {
    if exit.Some? then Encode(prefix, exit.value) else []
  }
}
