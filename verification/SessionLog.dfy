/**
 From the log to the emulator. A session follows its output log with a read offset and
 a marker accumulator: every chunk read is appended to the accumulator, drained, and
 what comes out is fed to the emulator. `World` interleaves this with the holder that
 appends and rotates, and with daemon restarts.
*/
module SessionLog {
  import opened Wrappers
  import opened Bytes
  import opened Streaming
  import opened ExitMarker
  import opened SpillFile
  import opened OutputLogs

  /** The most that is read in one go. */
  const CHUNK: nat := 0x1_0000
  /** The most of the log that is replayed into a fresh emulator. */
  const REPLAY_BUDGET: nat := 0x4_0000

  /** A session's progress along its log. */
  datatype Trail<S> = Trail(
    start: nat,           // where the emulator's content begins
    adopted: nat,         // where this daemon began to read
    off: nat,             // the next byte to read
    consumed: seq<Byte>,  // every byte read since `start`
    buffer: seq<Byte>,    // the marker accumulator
    fed: seq<Byte>,       // every byte fed to the emulator
    exits: seq<S>,        // the exits this daemon has acted on
    skipped: bool)        // some read began beyond the read offset

  /** Never across the incarnation boundary in one chunk. */
  function Budget(off: nat, floor: nat): nat {
    if off < floor then Min(CHUNK, floor - off) else CHUNK
  }

  /** One turn of the drain loop, once the read has returned `data` at `offset`. */
  function TakeChunk<S>(prefix: MarkerPrefix, decode: seq<Byte> -> Option<S>, floor: nat,
                        t: Trail<S>, offset: nat, data: seq<Byte>): Trail<S>
  {
    var p := Parse(Scan(prefix), t.buffer + data);
    var exit := LastExit(decode, p.tokens);
    var off := offset + |data|;
    t.(off := off,
       consumed := t.consumed + data,
       buffer := p.held,
       fed := t.fed + Stripped(p.tokens),
       exits := if exit.Some? && off > floor then t.exits + [exit.value] else t.exits,
       skipped := t.skipped || offset != t.off)
  }

  // ------------------------------------------------------------ what a trail means

  /** The emulator and the accumulator hold the reading of what was consumed. */
  ghost predicate Faithful<S>(prefix: MarkerPrefix, t: Trail<S>) {
    var p := Parse(Scan(prefix), t.consumed);
    t.fed == Stripped(p.tokens) && t.buffer == p.held
  }

  /** Nothing was skipped: what was consumed is the stream from `start` to `off`. */
  ghost predicate Contiguous<S>(h: seq<Byte>, t: Trail<S>) {
    t.start <= t.adopted <= t.off <= |h| && t.consumed == h[t.start..t.off]
  }

  /** The exits announced by the markers among `tokens`, read from offset `start`, that
      end beyond `low`. */
  function Live<S>(prefix: MarkerPrefix, decode: seq<Byte> -> Option<S>, start: nat, low: nat, tokens: seq<Token>): seq<S>
    decreases |tokens|
  {
    if tokens == [] then []
    else
      var end := start + Width(prefix, tokens[0]);
      LiveOne(decode, end, low, tokens[0]) + Live(prefix, decode, end, low, tokens[1..])
  }

  /** How many bytes of the stream a token takes. */
  function Width(prefix: MarkerPrefix, t: Token): nat {
    match t
    case Text(_) => 1
    case Marker(p) => |prefix| + |p| + 1
  }

  function Length(prefix: MarkerPrefix, tokens: seq<Token>): nat {
    if tokens == [] then 0 else Width(prefix, tokens[0]) + Length(prefix, tokens[1..])
  }

  function LiveOne<S>(decode: seq<Byte> -> Option<S>, end: nat, low: nat, t: Token): seq<S> {
    if t.Text? || end <= low then []
    else match decode(t.payload) case None => [] case Some(x) => [x]
  }

  /** This daemon has acted on an exit exactly when it has read, since it took over, an
      exit marker that ends beyond the incarnation boundary; and only on such exits. */
  ghost predicate Attributed<S(!new)>(prefix: MarkerPrefix, decode: seq<Byte> -> Option<S>, floor: nat, t: Trail<S>) {
    var live := Live(prefix, decode, t.start, Max(floor, t.adopted), Parse(Scan(prefix), t.consumed).tokens);
    (t.exits != [] <==> live != []) && forall e :: e in t.exits ==> e in live
  }

  ghost predicate TrailOk<S(!new)>(prefix: MarkerPrefix, decode: seq<Byte> -> Option<S>, floor: nat, h: seq<Byte>, t: Trail<S>) {
    Faithful(prefix, t) &&
    (!t.skipped ==> Contiguous(h, t) && Attributed(prefix, decode, floor, t))
  }

  // ------------------------------------------------------------ one chunk

  lemma ChunkFaithful<S>(prefix: MarkerPrefix, decode: seq<Byte> -> Option<S>, floor: nat,
                         t: Trail<S>, offset: nat, data: seq<Byte>)
    requires Faithful(prefix, t)
    ensures Faithful(prefix, TakeChunk(prefix, decode, floor, t, offset, data))
  {
    ChunkTokens(prefix, t.consumed, data);
    StrippedConcat(Parse(Scan(prefix), t.consumed).tokens, Parse(Scan(prefix), t.buffer + data).tokens);
  }

  lemma ChunkTokens(prefix: MarkerPrefix, consumed: seq<Byte>, data: seq<Byte>)
    ensures var before := Parse(Scan(prefix), consumed);
            var more := Parse(Scan(prefix), before.held + data);
            Parse(Scan(prefix), consumed + data) == Parsed(before.tokens + more.tokens, more.held)
  {
    ScanIsStable(prefix);
    ParseConcat(Scan(prefix), consumed, data);
  }

  lemma {:induction false} LengthSpelled(prefix: MarkerPrefix, tokens: seq<Token>)
    ensures Length(prefix, tokens) == |Flatten(Spell(prefix), tokens)|
  {
    if tokens != [] {
      LengthSpelled(prefix, tokens[1..]);
    }
  }

  lemma LiveCons<S>(prefix: MarkerPrefix, decode: seq<Byte> -> Option<S>, start: nat, low: nat, tokens: seq<Token>)
    requires tokens != []
    ensures var end := start + Width(prefix, tokens[0]);
            && Live(prefix, decode, start, low, tokens) ==
                 LiveOne(decode, end, low, tokens[0]) + Live(prefix, decode, end, low, tokens[1..])
            && start + Length(prefix, tokens) == end + Length(prefix, tokens[1..])
  {}

  lemma {:induction false} LiveConcat<S>(prefix: MarkerPrefix, decode: seq<Byte> -> Option<S>, start: nat, low: nat,
                                         a: seq<Token>, b: seq<Token>)
    ensures Live(prefix, decode, start, low, a + b) ==
            Live(prefix, decode, start, low, a) + Live(prefix, decode, start + Length(prefix, a), low, b)
    decreases |a|
  {
    if a == [] {
      Neutral(b);
    } else {
      var end := start + Width(prefix, a[0]);
      LiveConcat(prefix, decode, end, low, a[1..], b);
      TailOfConcat(a, b);
      LiveCons(prefix, decode, start, low, a);
      LiveCons(prefix, decode, start, low, a + b);
      Assoc(LiveOne(decode, end, low, a[0]), Live(prefix, decode, end, low, a[1..]),
                Live(prefix, decode, end + Length(prefix, a[1..]), low, b));
    }
  }

  /** Markers that end at or below the boundary announce nothing. */
  lemma {:induction false} LiveBelow<S>(prefix: MarkerPrefix, decode: seq<Byte> -> Option<S>, start: nat, low: nat, tokens: seq<Token>)
    requires start + Length(prefix, tokens) <= low
    ensures Live(prefix, decode, start, low, tokens) == []
    decreases |tokens|
  {
    if tokens != [] {
      LiveBelow(prefix, decode, start + Width(prefix, tokens[0]), low, tokens[1..]);
    }
  }

  /** The live exits include the last one a drain reports, and there is one when it does. */
  ghost predicate Reports<S(!new)>(decode: seq<Byte> -> Option<S>, tokens: seq<Token>, live: seq<S>) {
    (LastExit(decode, tokens).Some? <==> live != []) &&
    (LastExit(decode, tokens).Some? ==> LastExit(decode, tokens).value in live)
  }

  lemma ReportsCons<S(!new)>(prefix: MarkerPrefix, decode: seq<Byte> -> Option<S>, start: nat, low: nat,
                             t: Token, tokens: seq<Token>)
    requires t.Text? || start + Width(prefix, t) > low
    requires Reports(decode, tokens, Live(prefix, decode, start + Width(prefix, t), low, tokens))
    ensures Reports(decode, [t] + tokens, Live(prefix, decode, start, low, [t] + tokens))
  {
    assert ([t] + tokens)[1..] == tokens;
  }

  /** Every marker among the tokens ends beyond the first `n` bytes. */
  predicate NoneEndsWithin(prefix: MarkerPrefix, tokens: seq<Token>, n: nat) {
    tokens == [] ||
    var w := Width(prefix, tokens[0]);
    (tokens[0].Text? || w > n) && NoneEndsWithin(prefix, tokens[1..], if w <= n then n - w else 0)
  }

  lemma {:induction false} AllReported<S(!new)>(prefix: MarkerPrefix, decode: seq<Byte> -> Option<S>, start: nat, low: nat,
                                                tokens: seq<Token>, n: nat)
    requires NoneEndsWithin(prefix, tokens, n) && low <= start + n
    ensures Reports(decode, tokens, Live(prefix, decode, start, low, tokens))
    decreases |tokens|
  {
    if tokens != [] {
      var w := Width(prefix, tokens[0]);
      AllReported(prefix, decode, start + w, low, tokens[1..], if w <= n then n - w else 0);
      ReportsCons(prefix, decode, start, low, tokens[0], tokens[1..]);
      assert [tokens[0]] + tokens[1..] == tokens;
    }
  }

  /** Where there is no terminator, no marker ends. */
  lemma {:induction false} NoEarlyMarker(prefix: MarkerPrefix, bs: seq<Byte>, n: nat)
    requires n <= |bs| && TERMINATOR !in bs[..n]
    ensures NoneEndsWithin(prefix, Parse(Scan(prefix), bs).tokens, n)
    decreases |bs|
  {
    var front := Scan(prefix)(bs);
    if Takes(front, bs) {
      FrontWidth(prefix, bs, n);
      var tokens := Parse(Scan(prefix), bs[front.width..]).tokens;
      NoEarlyMarker(prefix, bs[front.width..], if front.width <= n then n - front.width else 0);
      assert ([front.token] + tokens)[1..] == tokens;
    }
  }

  lemma FrontWidth(prefix: MarkerPrefix, bs: seq<Byte>, n: nat)
    requires n <= |bs| && TERMINATOR !in bs[..n] && ScanFront(prefix, bs).Item?
    ensures var front := ScanFront(prefix, bs);
            && front.width <= |bs| && Width(prefix, front.token) == front.width
            && (front.token.Marker? ==> n < front.width)
            && TERMINATOR !in bs[front.width..][..if front.width <= n then n - front.width else 0]
  {
    var front := ScanFront(prefix, bs);
    if front.token.Marker? {
      FirstIndexAfter(bs, TERMINATOR, n);
    }
    if front.width <= n {
      assert bs[front.width..][..n - front.width] == bs[..n][front.width..];
    }
  }

  lemma NoTerminatorHeld(prefix: MarkerPrefix, bs: seq<Byte>)
    ensures TERMINATOR !in Parse(Scan(prefix), bs).held
  {
    var held := Parse(Scan(prefix), bs).held;
    HeldTail(prefix, bs);
    if !Open(prefix, held) {
      assert forall k :: 0 <= k < |held| ==> held[k] == prefix[k];
    }
  }

  /** A chunk lies on one side of the boundary: if below, it announces nothing; if above,
      it announces whatever exit its drain reports. */
  lemma ChunkExits<S(!new)>(prefix: MarkerPrefix, decode: seq<Byte> -> Option<S>, floor: nat, low: nat, at: nat,
                            held: seq<Byte>, data: seq<Byte>)
    requires TERMINATOR !in held && floor <= low
    requires at + |held| + |data| <= floor || low <= at + |held|
    ensures var tokens := Parse(Scan(prefix), held + data).tokens;
            var live := Live(prefix, decode, at, low, tokens);
            if at + |held| + |data| <= floor then live == [] else Reports(decode, tokens, live)
  {
    if at + |held| + |data| <= floor {
      SpelledLength(prefix, held, data);
      LiveBelow(prefix, decode, at, low, Parse(Scan(prefix), held + data).tokens);
    } else {
      assert (held + data)[..|held|] == held;
      NoEarlyMarker(prefix, held + data, |held|);
      AllReported(prefix, decode, at, low, Parse(Scan(prefix), held + data).tokens, |held|);
    }
  }

  lemma SpelledLength(prefix: MarkerPrefix, held: seq<Byte>, data: seq<Byte>)
    ensures Length(prefix, Parse(Scan(prefix), held + data).tokens) <= |held| + |data|
  {
    LengthSpelled(prefix, Parse(Scan(prefix), held + data).tokens);
    ScanLossless(prefix, held + data);
  }

  lemma ExitsStep<S(!new)>(decode: seq<Byte> -> Option<S>, more: seq<Token>, above: bool,
                           exits: seq<S>, was: seq<S>, now: seq<S>)
    requires (exits != [] <==> was != []) && forall e :: e in exits ==> e in was
    requires if above then Reports(decode, more, now) else now == []
    ensures var exit := LastExit(decode, more);
            var exits' := if exit.Some? && above then exits + [exit.value] else exits;
            (exits' != [] <==> was + now != []) && forall e :: e in exits' ==> e in was + now
  {
  }

  /** The live exits after a chunk are those before it, and the ones it announces. */
  lemma ChunkLive<S(!new)>(prefix: MarkerPrefix, decode: seq<Byte> -> Option<S>, floor: nat, low: nat, start: nat,
                           consumed: seq<Byte>, data: seq<Byte>)
    returns (now: seq<S>)
    requires floor <= low
    requires start + |consumed| + |data| <= floor || low <= start + |consumed|
    ensures Live(prefix, decode, start, low, Parse(Scan(prefix), consumed + data).tokens) ==
            Live(prefix, decode, start, low, Parse(Scan(prefix), consumed).tokens) + now
    ensures var more := Parse(Scan(prefix), Parse(Scan(prefix), consumed).held + data).tokens;
            if start + |consumed| + |data| <= floor then now == [] else Reports(decode, more, now)
  {
    var before := Parse(Scan(prefix), consumed);
    ChunkTokens(prefix, consumed, data);
    HeldOffset(prefix, consumed);
    NoTerminatorHeld(prefix, consumed);
    var more := Parse(Scan(prefix), before.held + data).tokens;
    now := LiveSplit(prefix, decode, start, low, before.tokens, more, Parse(Scan(prefix), consumed + data).tokens);
    ChunkExits(prefix, decode, floor, low, start + Length(prefix, before.tokens), before.held, data);
    assert now == Live(prefix, decode, start + Length(prefix, before.tokens), low, more);
  }

  lemma LiveSplit<S>(prefix: MarkerPrefix, decode: seq<Byte> -> Option<S>, start: nat, low: nat,
                     before: seq<Token>, more: seq<Token>, all: seq<Token>)
    returns (now: seq<S>)
    requires all == before + more
    ensures now == Live(prefix, decode, start + Length(prefix, before), low, more)
    ensures Live(prefix, decode, start, low, all) == Live(prefix, decode, start, low, before) + now
  {
    now := Live(prefix, decode, start + Length(prefix, before), low, more);
    LiveConcat(prefix, decode, start, low, before, more);
  }

  /** Exit attribution survives every chunk that keeps to one side of the boundary. */
  lemma ChunkAttributed<S(!new)>(prefix: MarkerPrefix, decode: seq<Byte> -> Option<S>, floor: nat,
                                 t: Trail<S>, data: seq<Byte>)
    requires Faithful(prefix, t) && Attributed(prefix, decode, floor, t)
    requires t.start <= t.adopted <= t.off && t.off == t.start + |t.consumed|
    requires t.off + |data| <= floor || floor <= t.off
    ensures Attributed(prefix, decode, floor, TakeChunk(prefix, decode, floor, t, t.off, data))
  {
    var low := Max(floor, t.adopted);
    var was := Live(prefix, decode, t.start, low, Parse(Scan(prefix), t.consumed).tokens);
    var now := ChunkLive(prefix, decode, floor, low, t.start, t.consumed, data);
    ExitsStep(decode, Parse(Scan(prefix), t.buffer + data).tokens, t.off + |data| > floor, t.exits, was, now);
  }

  lemma HeldOffset(prefix: MarkerPrefix, consumed: seq<Byte>)
    ensures var p := Parse(Scan(prefix), consumed);
            Length(prefix, p.tokens) + |p.held| == |consumed|
  {
    LengthSpelled(prefix, Parse(Scan(prefix), consumed).tokens);
    ScanLossless(prefix, consumed);
  }

  lemma ChunkContiguous<S>(prefix: MarkerPrefix, decode: seq<Byte> -> Option<S>, floor: nat, h: seq<Byte>,
                           t: Trail<S>, data: seq<Byte>)
    requires Contiguous(h, t)
    requires t.off + |data| <= |h| && data == h[t.off..t.off + |data|]
    ensures Contiguous(h, TakeChunk(prefix, decode, floor, t, t.off, data))
    ensures t.off == t.start + |t.consumed|
  {
    assert h[t.start..t.off] + h[t.off..t.off + |data|] == h[t.start..t.off + |data|];
  }

  /** One turn of the drain loop keeps everything a trail promises, provided the chunk is
      what the stream holds and keeps to one side of the boundary. */
  lemma TakeChunkOk<S(!new)>(prefix: MarkerPrefix, decode: seq<Byte> -> Option<S>, floor: nat, h: seq<Byte>,
                             t: Trail<S>, offset: nat, data: seq<Byte>)
    requires TrailOk(prefix, decode, floor, h, t)
    requires offset + |data| <= |h| && data == h[offset..offset + |data|]
    requires t.off + |data| <= floor || floor <= t.off
    ensures TrailOk(prefix, decode, floor, h, TakeChunk(prefix, decode, floor, t, offset, data))
  {
    ChunkFaithful(prefix, decode, floor, t, offset, data);
    if !t.skipped && offset == t.off {
      ChunkContiguous(prefix, decode, floor, h, t, data);
      ChunkAttributed(prefix, decode, floor, t, data);
    }
  }

  // ------------------------------------------------------------ one turn

  /** What a read-only log shows: the stream's `base..end`, and the tail it was opened at. */
  datatype Window = Window(base: nat, end: nat, ringStart: nat)

  /** Where a read starts, and where it would end: OutputLog.Read, read-only. */
  function ReadStart(win: Window, off: nat): nat {
    Max(off, Min(win.ringStart, win.base))
  }

  function ReadEnd(win: Window, off: nat, floor: nat): nat {
    Min(win.end, ReadStart(win, off) + Budget(off, floor))
  }

  /** The byte count would be negative: the daemon traps. */
  predicate Traps(win: Window, off: nat, floor: nat) {
    ReadStart(win, off) < win.end && ReadEnd(win, off, floor) < win.base
  }

  /** One turn of the drain loop, wherever the reader stands; a trap leaves it there. */
  function Turn<S>(prefix: MarkerPrefix, decode: seq<Byte> -> Option<S>, floor: nat, win: Window, h: seq<Byte>, t: Trail<S>): Trail<S> {
    var o := ReadStart(win, t.off);
    if t.off >= win.end || Traps(win, t.off, floor) then t
    else if o >= win.end then t.(off := win.end, skipped := true)
    else
      var start := Max(o, win.base);
      var end := ReadEnd(win, t.off, floor);
      if start >= end || end > |h| then t.(off := start, skipped := t.skipped || start != t.off)
      else TakeChunk(prefix, decode, floor, t, start, h[start..end])
  }

  /** Moving on without reading is only harmless when nothing is passed over. */
  lemma MovedOn<S(!new)>(prefix: MarkerPrefix, decode: seq<Byte> -> Option<S>, floor: nat, h: seq<Byte>, t: Trail<S>, off: nat)
    requires TrailOk(prefix, decode, floor, h, t)
    ensures TrailOk(prefix, decode, floor, h, t.(off := off, skipped := t.skipped || off != t.off))
  {
  }

  lemma TurnOk<S(!new)>(prefix: MarkerPrefix, decode: seq<Byte> -> Option<S>, floor: nat, win: Window, h: seq<Byte>, t: Trail<S>)
    requires TrailOk(prefix, decode, floor, h, t)
    ensures TrailOk(prefix, decode, floor, h, Turn(prefix, decode, floor, win, h, t))
  {
    var start := Max(ReadStart(win, t.off), win.base);
    var end := ReadEnd(win, t.off, floor);
    if t.off < win.end && !Traps(win, t.off, floor) {
      if ReadStart(win, t.off) >= win.end {
        MovedOn(prefix, decode, floor, h, t, win.end);
      } else if start >= end || end > |h| {
        MovedOn(prefix, decode, floor, h, t, start);
      } else {
        TakeChunkOk(prefix, decode, floor, h, t, start, h[start..end]);
      }
    }
  }

  /** Inside the retained window a turn neither traps nor skips, and it advances. */
  lemma TurnInside<S(!new)>(prefix: MarkerPrefix, decode: seq<Byte> -> Option<S>, floor: nat, win: Window, h: seq<Byte>, t: Trail<S>)
    requires win.end <= |h|
    ensures win.base <= t.off < win.end ==>
              var z := Turn(prefix, decode, floor, win, h, t);
              !Traps(win, t.off, floor) && t.off < z.off <= win.end && SameReader(t, z) && |z.consumed| > |t.consumed|
  {
  }

  // ------------------------------------------------------------ the session

  class AgentSession<S(!new)> {
    const prefix: MarkerPrefix
    const decode: seq<Byte> -> Option<S>
    const log: OutputLog
    var logReadOffset: nat
    var logMarkerBuffer: seq<Byte>
    var exitMarkerFloor: nat
    /** What has been fed to the emulator, and the exits acted on. */
    ghost var trail: Trail<S>

    /** The session's fields are where the trail says. */
    ghost predicate Follows()
      reads this
    {
      trail.off == logReadOffset && trail.buffer == logMarkerBuffer
    }

    ghost function Shown(): Window
      reads log
    {
      Window(log.fileBaseOffset, log.tailOffset, log.ringStartOffset)
    }

    constructor (prefix: MarkerPrefix, decode: seq<Byte> -> Option<S>, log: OutputLog)
      ensures this.prefix == prefix && this.decode == decode && this.log == log
      ensures Follows() && trail == Trail(0, 0, 0, [], [], [], [], false)
    {
      this.prefix, this.decode, this.log := prefix, decode, log;
      logReadOffset, logMarkerBuffer, exitMarkerFloor := 0, [], 0;
      trail := Trail(0, 0, 0, [], [], [], [], false);
    }

    /** Reads everything the file shows, feeds it, and acts on the exits in it. `h` is the
        session's output stream. Only a reader the file has left behind can trap, or skip. */
    method DrainLog(ghost h: seq<Byte>) returns (trapped: bool)
      requires log.readOnly && log.ring == [] && log.syncPoints == [] && log.Source() != null
      requires ImageOf(log.Source().content, h) && Offset64(|h|)
      requires Follows() && TrailOk(prefix, decode, exitMarkerFloor, h, trail)
      modifies this, log
      ensures log.Reading(h) && exitMarkerFloor == old(exitMarkerFloor)
      ensures Follows() && TrailOk(prefix, decode, exitMarkerFloor, h, trail)
      ensures log.fileBaseOffset <= old(logReadOffset) ==>
                !trapped && SameReader(old(trail), trail) && logReadOffset == Max(old(logReadOffset), log.tailOffset)
    {
      var _ := log.RefreshFromDisk(h);
      trapped := DrainShown(h);
    }

    method DrainShown(ghost h: seq<Byte>) returns (trapped: bool)
      requires log.Reading(h)
      requires Follows() && TrailOk(prefix, decode, exitMarkerFloor, h, trail)
      modifies this`logReadOffset, this`logMarkerBuffer, this`trail, log`readHandle
      ensures log.Reading(h)
      ensures Follows() && TrailOk(prefix, decode, exitMarkerFloor, h, trail)
      ensures log.fileBaseOffset <= old(logReadOffset) ==>
                !trapped && SameReader(old(trail), trail) && logReadOffset == Max(old(logReadOffset), log.tailOffset)
    {
      trapped := false;
      while logReadOffset < log.tailOffset
        invariant log.Reading(h) && old(logReadOffset) <= logReadOffset && !trapped
        invariant Follows() && TrailOk(prefix, decode, exitMarkerFloor, h, trail)
        invariant log.fileBaseOffset <= old(logReadOffset) ==>
                    SameReader(old(trail), trail) &&
                    (logReadOffset == old(logReadOffset) || logReadOffset <= log.tailOffset)
        decreases log.tailOffset - logReadOffset
      {
        var stop;
        trapped, stop := OneTurn(h);
        if trapped || stop { break; }
      }
    }

    /** One turn, or the trap; `stop` when there was nothing to read. */
    method OneTurn(ghost h: seq<Byte>) returns (trapped: bool, stop: bool)
      requires log.Reading(h) && logReadOffset < log.tailOffset
      requires Follows() && TrailOk(prefix, decode, exitMarkerFloor, h, trail)
      modifies this`logReadOffset, this`logMarkerBuffer, this`trail, log`readHandle
      ensures log.Reading(h)
      ensures Follows() && TrailOk(prefix, decode, exitMarkerFloor, h, trail)
      ensures logReadOffset >= old(logReadOffset) && (!trapped && !stop ==> logReadOffset > old(logReadOffset))
      ensures log.fileBaseOffset <= old(logReadOffset) ==>
                !trapped && !stop && SameReader(old(trail), trail) && logReadOffset <= log.tailOffset
    {
      TurnOk(prefix, decode, exitMarkerFloor, Shown(), h, trail);
      TurnInside(prefix, decode, exitMarkerFloor, Shown(), h, trail);
      if log.Underflows(logReadOffset, Budget(logReadOffset, exitMarkerFloor)) {
        return true, false;
      }
      trapped := false;
      stop := TakeTurn(h);
    }

    method TakeTurn(ghost h: seq<Byte>) returns (stop: bool)
      requires log.Reading(h) && logReadOffset < log.tailOffset && !Traps(Shown(), logReadOffset, exitMarkerFloor)
      requires Follows()
      modifies this`logReadOffset, this`logMarkerBuffer, this`trail, log`readHandle
      ensures log.Reading(h) && Follows()
      ensures trail == Turn(prefix, decode, exitMarkerFloor, Shown(), h, old(trail))
      ensures logReadOffset >= old(logReadOffset) && (!stop <==> |trail.consumed| > |old(trail).consumed|)
      ensures !stop ==> logReadOffset > old(logReadOffset)
    {
      var offset, data := ReadChunk(h);
      if data == [] {
        logReadOffset := Max(logReadOffset, offset);
        trail := trail.(off := logReadOffset, skipped := trail.skipped || logReadOffset != trail.off);
        return true;
      }
      TakeData(offset, data);
      return false;
    }

    /** The next chunk of the log, never across the incarnation boundary. */
    method ReadChunk(ghost h: seq<Byte>) returns (offset: nat, data: seq<Byte>)
      requires log.Reading(h) && logReadOffset < log.tailOffset
      requires !Traps(Shown(), logReadOffset, exitMarkerFloor)
      modifies log`readHandle
      ensures log.Reading(h)
      ensures var o := ReadStart(Shown(), logReadOffset); var end := ReadEnd(Shown(), logReadOffset, exitMarkerFloor);
              if o >= log.tailOffset then offset == log.tailOffset && data == []
              else offset == Max(o, log.fileBaseOffset) <= end <= |h| && data == h[offset..end]
    {
      var budget := CHUNK;
      if logReadOffset < exitMarkerFloor {
        budget := Min(budget, exitMarkerFloor - logReadOffset);
      }
      offset, data := log.Read(logReadOffset, budget, h);
    }

    method TakeData(offset: nat, data: seq<Byte>)
      requires Follows()
      modifies this`logReadOffset, this`logMarkerBuffer, this`trail
      ensures Follows()
      ensures trail == TakeChunk(prefix, decode, exitMarkerFloor, old(trail), offset, data)
    {
      trail := TakeChunk(prefix, decode, exitMarkerFloor, trail, offset, data);
      logReadOffset := offset + |data|;
      logMarkerBuffer := logMarkerBuffer + data;
      var output, exit;
      logMarkerBuffer, output, exit := Drain(prefix, logMarkerBuffer, decode);
    }
  }

  ghost predicate SameReader<S>(a: Trail<S>, b: Trail<S>) {
    a.skipped == b.skipped && a.start == b.start && a.adopted == b.adopted
  }
}
