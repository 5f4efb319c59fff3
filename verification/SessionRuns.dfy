/**
 Whole runs of the output pipeline: a holder appends and rotates, the daemon refreshes,
 reads and saves checkpoints, and daemons come and go. Steps of the two processes
 interleave freely, down to the single chunk.
*/
module SessionRuns {
  import opened Wrappers
  import opened Bytes
  import opened Streaming
  import opened ExitMarker
  import opened OutputLogs
  import opened SessionLog

  /** A spill file ever installed under the path; it shows the stream's `base..end`. */
  datatype File = File(base: nat, end: nat)

  /** The daemon's read-only log: the file its handle is on, and what its last refresh
      saw of it. */
  datatype Reader = Reader(handle: nat, base: nat, end: nat, ringStart: nat)

  datatype World<S> = World(
    history: seq<Byte>,
    files: seq<File>,
    reader: Reader,
    trail: Trail<S>,
    floor: nat,
    saved: Option<Trail<S>>)

  datatype Step =
    | Append(data: seq<Byte>)                 // the holder writes
    | Rotate(newBase: nat)                    // the holder installs a shorter file
    | Refresh(rearm: bool)                    // the daemon looks at the file again
    | Chunk                                   // one turn of its drain loop
    | Persist                                 // it saves a checkpoint
    | Restart(floor: nat, restored: bool)     // another daemon takes over

  function LastFile<S>(w: World<S>): File
    requires w.files != []
  {
    w.files[|w.files| - 1]
  }

  function Shown(r: Reader): Window {
    Window(r.base, r.end, r.ringStart)
  }

  predicate Trapped<S>(w: World<S>) {
    Traps(Shown(w.reader), w.trail.off, w.floor)
  }

  function DrainStep<S>(prefix: MarkerPrefix, decode: seq<Byte> -> Option<S>, w: World<S>): World<S> {
    w.(trail := Turn(prefix, decode, w.floor, Shown(w.reader), w.history, w.trail))
  }

  /** A fresh daemon: from the checkpoint when it is usable, else from a bounded replay. */
  function Adopt<S>(w: World<S>, floor: nat, restored: bool): World<S>
    requires w.files != []
  {
    var file := LastFile(w);
    var reader := Reader(|w.files| - 1, file.base, file.end, file.end);
    var usable := restored && w.saved.Some? && w.saved.value.off <= file.end &&
                  file.end - w.saved.value.off <= REPLAY_BUDGET;
    var trail :=
      if usable then w.saved.value.(adopted := w.saved.value.off, exits := [])
      else
        var low := if file.end > REPLAY_BUDGET then file.end - REPLAY_BUDGET else 0;
        var start := Max(low, Min(file.end, Min(file.base, file.end)));
        Trail(start, start, start, [], [], [], [], false);
    w.(reader := reader, trail := trail, floor := floor)
  }

  function Do<S>(prefix: MarkerPrefix, decode: seq<Byte> -> Option<S>, w: World<S>, s: Step): World<S>
    requires w.files != []
  {
    match s
    case Append(data) =>
      var file := LastFile(w);
      w.(history := w.history + data,
         files := w.files[|w.files| - 1 := file.(end := file.end + |data|)])
    case Rotate(newBase) =>
      if LastFile(w).base <= newBase <= |w.history|
      then w.(files := w.files + [File(newBase, |w.history|)]) else w
    case Refresh(rearm) =>
      var handle := if rearm || w.reader.handle >= |w.files| then |w.files| - 1 else w.reader.handle;
      w.(reader := Reader(handle, w.files[handle].base, w.files[handle].end, w.reader.ringStart))
    case Chunk => DrainStep(prefix, decode, w)
    case Persist => w.(saved := Some(w.trail))
    case Restart(floor, restored) => Adopt(w, floor, restored)
  }

  function Run<S>(prefix: MarkerPrefix, decode: seq<Byte> -> Option<S>, w: World<S>, steps: seq<Step>): (r: World<S>)
    requires w.files != []
    ensures r.files != []
    decreases |steps|
  {
    if steps == [] then w else Run(prefix, decode, Do(prefix, decode, w, steps[0]), steps[1..])
  }

  function Empty<S>(): World<S> {
    World([], [File(0, 0)], Reader(0, 0, 0, 0), Trail(0, 0, 0, [], [], [], [], false), 0, None)
  }

  // ------------------------------------------------------------ the invariant

  ghost predicate FilesOk<S>(w: World<S>) {
    && w.files != [] && LastFile(w).end == |w.history|
    && (forall i :: 0 <= i < |w.files| ==> w.files[i].base <= w.files[i].end <= |w.history|)
    && w.reader.base <= w.reader.end <= |w.history|
  }

  ghost predicate SavedOk<S>(prefix: MarkerPrefix, w: World<S>) {
    w.saved.Some? ==>
      Faithful(prefix, w.saved.value) && (!w.saved.value.skipped ==> Contiguous(w.history, w.saved.value))
  }

  ghost predicate WorldOk<S(!new)>(prefix: MarkerPrefix, decode: seq<Byte> -> Option<S>, w: World<S>) {
    FilesOk(w) && SavedOk(prefix, w) && TrailOk(prefix, decode, w.floor, w.history, w.trail)
  }

  lemma StillContiguous<S>(h: seq<Byte>, data: seq<Byte>, t: Trail<S>)
    requires Contiguous(h, t)
    ensures Contiguous(h + data, t)
  {
    assert (h + data)[t.start..t.off] == h[t.start..t.off];
  }

  /** Nothing read before a daemon took over makes it act on an exit. */
  lemma NothingYet<S(!new)>(prefix: MarkerPrefix, decode: seq<Byte> -> Option<S>, floor: nat, t: Trail<S>)
    requires t.exits == [] && t.adopted == t.off && t.start + |t.consumed| == t.off
    ensures Attributed(prefix, decode, floor, t)
  {
    HeldOffset(prefix, t.consumed);
    LiveBelow(prefix, decode, t.start, Max(floor, t.adopted), Parse(Scan(prefix), t.consumed).tokens);
  }

  lemma AppendOk<S(!new)>(prefix: MarkerPrefix, decode: seq<Byte> -> Option<S>, w: World<S>, data: seq<Byte>)
    requires WorldOk(prefix, decode, w)
    ensures WorldOk(prefix, decode, Do(prefix, decode, w, Append(data)))
  {
    if !w.trail.skipped { StillContiguous(w.history, data, w.trail); }
    if w.saved.Some? && !w.saved.value.skipped { StillContiguous(w.history, data, w.saved.value); }
  }

  lemma OtherTrail<S(!new)>(prefix: MarkerPrefix, decode: seq<Byte> -> Option<S>, w: World<S>, t: Trail<S>)
    requires WorldOk(prefix, decode, w) && TrailOk(prefix, decode, w.floor, w.history, t)
    ensures WorldOk(prefix, decode, w.(trail := t))
  {
  }

  lemma ChunkOk<S(!new)>(prefix: MarkerPrefix, decode: seq<Byte> -> Option<S>, w: World<S>)
    requires WorldOk(prefix, decode, w)
    ensures WorldOk(prefix, decode, DrainStep(prefix, decode, w))
  {
    TurnOk(prefix, decode, w.floor, Shown(w.reader), w.history, w.trail);
    OtherTrail(prefix, decode, w, DrainStep(prefix, decode, w).trail);
  }

  lemma RestartOk<S(!new)>(prefix: MarkerPrefix, decode: seq<Byte> -> Option<S>, w: World<S>, floor: nat, restored: bool)
    requires WorldOk(prefix, decode, w)
    ensures WorldOk(prefix, decode, Adopt(w, floor, restored))
  {
    var t := Adopt(w, floor, restored).trail;
    assert t.consumed == [] ==> Parse(Scan(prefix), t.consumed) == Parsed([], []);
    if !t.skipped {
      NothingYet(prefix, decode, floor, t);
    }
  }

  lemma StepOk<S(!new)>(prefix: MarkerPrefix, decode: seq<Byte> -> Option<S>, w: World<S>, s: Step)
    requires WorldOk(prefix, decode, w)
    ensures WorldOk(prefix, decode, Do(prefix, decode, w, s))
  {
    match s
    case Append(data) => AppendOk(prefix, decode, w, data);
    case Rotate(_) =>
    case Refresh(_) =>
    case Chunk => ChunkOk(prefix, decode, w);
    case Persist =>
    case Restart(floor, restored) => RestartOk(prefix, decode, w, floor, restored);
  }

  lemma {:induction false} RunOk<S(!new)>(prefix: MarkerPrefix, decode: seq<Byte> -> Option<S>, w: World<S>, steps: seq<Step>)
    requires WorldOk(prefix, decode, w)
    ensures WorldOk(prefix, decode, Run(prefix, decode, w, steps))
    decreases |steps|
  {
    if steps != [] {
      StepOk(prefix, decode, w, steps[0]);
      RunOk(prefix, decode, Do(prefix, decode, w, steps[0]), steps[1..]);
    }
  }

  lemma EmptyOk<S(!new)>(prefix: MarkerPrefix, decode: seq<Byte> -> Option<S>)
    ensures WorldOk<S>(prefix, decode, Empty())
  {
    NothingYet<S>(prefix, decode, 0, Empty().trail);
  }

  // ------------------------------------------------------------ the theorems

  /** In every run, through every interleaving, rotation and restart: unless some read was
      forced past bytes the holder had already dropped, what the emulator was fed and what
      the accumulator holds are exactly the marker-stripped reading of the stream. */
  lemma EmulatorSeesTheStream<S(!new)>(prefix: MarkerPrefix, decode: seq<Byte> -> Option<S>, steps: seq<Step>)
    ensures var w := Run<S>(prefix, decode, Empty(), steps);
            !w.trail.skipped ==>
              w.trail.start <= w.trail.off <= |w.history| &&
              var p := Parse(Scan(prefix), w.history[w.trail.start..w.trail.off]);
              w.trail.fed == Stripped(p.tokens) && w.trail.buffer == p.held
  {
    EmptyOk<S>(prefix, decode);
    RunOk<S>(prefix, decode, Empty(), steps);
  }

  /** Where a daemon starts: at a usable checkpoint exactly where that left off, with what had
      been fed and held then; else at the last of the budget, or the start of the file. */
  lemma RestartPosition<S(!new)>(prefix: MarkerPrefix, decode: seq<Byte> -> Option<S>, w: World<S>, floor: nat, restored: bool)
    requires WorldOk(prefix, decode, w)
    ensures var (z, end) := (Do(prefix, decode, w, Restart(floor, restored)), |w.history|);
            && z.floor == floor && z.trail.exits == [] && z.trail.adopted == z.trail.off && z.history == w.history
            && z.reader == Reader(|w.files| - 1, LastFile(w).base, end, end)
            && if restored && w.saved.Some? && w.saved.value.off <= end <= w.saved.value.off + REPLAY_BUDGET
               then z.trail == w.saved.value.(adopted := w.saved.value.off, exits := [])
               else z.trail.start == z.trail.off == (if end <= REPLAY_BUDGET + LastFile(w).base then LastFile(w).base else end - REPLAY_BUDGET) &&
                    z.trail.fed == [] && z.trail.buffer == [] && !z.trail.skipped
  {
  }

  lemma SavedStep<S>(prefix: MarkerPrefix, decode: seq<Byte> -> Option<S>, w: World<S>, s: Step)
    requires w.files != [] && s != Persist
    ensures Do(prefix, decode, w, s).saved == w.saved
  {
  }

  lemma {:induction false} SavedStays<S>(prefix: MarkerPrefix, decode: seq<Byte> -> Option<S>, w: World<S>, steps: seq<Step>)
    requires w.files != [] && Persist !in steps
    ensures Run(prefix, decode, w, steps).saved == w.saved
    decreases |steps|
  {
    if steps != [] {
      SavedStep(prefix, decode, w, steps[0]);
      SavedStays(prefix, decode, Do(prefix, decode, w, steps[0]), steps[1..]);
    }
  }

  /** A checkpoint is taken up where it was saved, whatever happens in between: nothing is
      fed twice and nothing left out, as long as the stream has not outrun the budget. */
  lemma CheckpointResumes<S(!new)>(prefix: MarkerPrefix, decode: seq<Byte> -> Option<S>, w: World<S>, steps: seq<Step>, floor: nat)
    requires WorldOk(prefix, decode, w) && Persist !in steps
    ensures var later := Run(prefix, decode, Do(prefix, decode, w, Persist), steps);
            var z := Do(prefix, decode, later, Restart(floor, true));
            w.trail.off <= |later.history| <= w.trail.off + REPLAY_BUDGET ==>
              z.trail == w.trail.(adopted := w.trail.off, exits := [])
  {
    var saved := Do(prefix, decode, w, Persist);
    StepOk(prefix, decode, w, Persist);
    SavedStays(prefix, decode, saved, steps);
    RunOk(prefix, decode, saved, steps);
    RestartPosition(prefix, decode, Run(prefix, decode, saved, steps), floor, true);
  }

  /** A turn of the drain loop skips exactly when the reader has fallen behind the file. */
  lemma SkipsExactlyWhenBehind<S(!new)>(prefix: MarkerPrefix, decode: seq<Byte> -> Option<S>, w: World<S>)
    requires WorldOk(prefix, decode, w) && !w.trail.skipped && w.trail.off < w.reader.end && !Trapped(w)
    ensures DrainStep(prefix, decode, w).trail.skipped <==> w.trail.off < w.reader.base
  {
  }

  /** Inside the retained window every turn makes progress and never traps. */
  lemma WindowProgress<S(!new)>(prefix: MarkerPrefix, decode: seq<Byte> -> Option<S>, w: World<S>)
    requires WorldOk(prefix, decode, w) && w.reader.base <= w.trail.off < w.reader.end
    ensures !Trapped(w)
    ensures w.trail.off < DrainStep(prefix, decode, w).trail.off <= w.reader.end
  {
  }

  /** In every run, the current daemon acts on an exit exactly when it has read an exit
      marker that ends beyond the incarnation boundary. */
  lemma ExitsByEpoch<S(!new)>(prefix: MarkerPrefix, decode: seq<Byte> -> Option<S>, steps: seq<Step>)
    ensures var w := Run<S>(prefix, decode, Empty(), steps);
            !w.trail.skipped ==>
              var live := Live(prefix, decode, w.trail.start, Max(w.floor, w.trail.adopted),
                               Parse(Scan(prefix), w.trail.consumed).tokens);
              (w.trail.exits != [] <==> live != []) && forall e :: e in w.trail.exits ==> e in live
  {
    EmptyOk<S>(prefix, decode);
    RunOk<S>(prefix, decode, Empty(), steps);
  }

  /** A holder's exit marker, its last write, once it has been read: beside what earlier
      markers announced, it is acted on exactly when what it is read as decodes; and it is
      read as itself unless an earlier marker was left open, when the two are joined. */
  lemma FinalMarkerIsSeen<S(!new)>(prefix: MarkerPrefix, decode: seq<Byte> -> Option<S>, w: World<S>,
                                   before: seq<Byte>, payload: seq<Byte>)
    requires WorldOk(prefix, decode, w) && !w.trail.skipped
    requires w.trail.consumed == before + Encode(prefix, payload)
    requires TERMINATOR !in payload && Max(w.floor, w.trail.adopted) < w.trail.off
    ensures var earlier := Live(prefix, decode, w.trail.start, Max(w.floor, w.trail.adopted),
                                Parse(Scan(prefix), before).tokens);
            w.trail.exits != [] <==> earlier != [] || decode(ReadAs(prefix, before, payload)).Some?
  {
    HeldOffset(prefix, w.trail.consumed);
    if Open(prefix, Parse(Scan(prefix), before).held) {
      SwallowedLive(prefix, decode, w.trail.start, Max(w.floor, w.trail.adopted), before, payload);
    } else {
      AppendedLive(prefix, decode, w.trail.start, Max(w.floor, w.trail.adopted), before, payload);
    }
  }

  lemma SwallowedLive<S(!new)>(prefix: MarkerPrefix, decode: seq<Byte> -> Option<S>, start: nat, low: nat,
                               before: seq<Byte>, payload: seq<Byte>)
    requires TERMINATOR !in payload && low < start + |before + Encode(prefix, payload)|
    requires Open(prefix, Parse(Scan(prefix), before).held)
    ensures Live(prefix, decode, start, low, Parse(Scan(prefix), before + Encode(prefix, payload)).tokens) != [] <==>
              Live(prefix, decode, start, low, Parse(Scan(prefix), before).tokens) != [] ||
              decode(ReadAs(prefix, before, payload)).Some?
  {
    HeldOffset(prefix, before + Encode(prefix, payload));
    SwallowedMarker(prefix, before, payload);
    LastLive(prefix, decode, start, low, Parse(Scan(prefix), before).tokens, ReadAs(prefix, before, payload));
  }

  lemma AppendedLive<S(!new)>(prefix: MarkerPrefix, decode: seq<Byte> -> Option<S>, start: nat, low: nat,
                              before: seq<Byte>, payload: seq<Byte>)
    requires TERMINATOR !in payload && low < start + |before + Encode(prefix, payload)|
    requires !Open(prefix, Parse(Scan(prefix), before).held)
    ensures Live(prefix, decode, start, low, Parse(Scan(prefix), before + Encode(prefix, payload)).tokens) != [] <==>
              Live(prefix, decode, start, low, Parse(Scan(prefix), before).tokens) != [] || decode(payload).Some?
  {
    var tokens, texts := Parse(Scan(prefix), before).tokens, Texts(Parse(Scan(prefix), before).held);
    HeldOffset(prefix, before + Encode(prefix, payload));
    AppendedMarker(prefix, before, payload);
    Assoc(tokens, texts, [Marker(payload)]);
    LastLive(prefix, decode, start, low, tokens + texts, payload);
    LiveThenTexts(prefix, decode, start, low, tokens, texts);
  }

  lemma LiveThenTexts<S>(prefix: MarkerPrefix, decode: seq<Byte> -> Option<S>, start: nat, low: nat,
                         tokens: seq<Token>, texts: seq<Token>)
    requires forall t | t in texts :: t.Text?
    ensures Live(prefix, decode, start, low, tokens + texts) == Live(prefix, decode, start, low, tokens)
  {
    LiveConcat(prefix, decode, start, low, tokens, texts);
    LiveTexts(prefix, decode, start + Length(prefix, tokens), low, texts);
    Neutral(Live(prefix, decode, start, low, tokens));
  }

  lemma LastLive<S(!new)>(prefix: MarkerPrefix, decode: seq<Byte> -> Option<S>, start: nat, low: nat,
                          earlier: seq<Token>, payload: seq<Byte>)
    requires low < start + Length(prefix, earlier + [Marker(payload)])
    ensures Live(prefix, decode, start, low, earlier + [Marker(payload)]) != [] <==>
              Live(prefix, decode, start, low, earlier) != [] || decode(payload).Some?
  {
    var m := [Marker(payload)];
    LengthConcat(prefix, earlier, m);
    LiveConcat(prefix, decode, start, low, earlier, m);
    assert m[1..] == [];
  }

  lemma {:induction false} LiveTexts<S>(prefix: MarkerPrefix, decode: seq<Byte> -> Option<S>, start: nat, low: nat, tokens: seq<Token>)
    requires forall t | t in tokens :: t.Text?
    ensures Live(prefix, decode, start, low, tokens) == []
    decreases |tokens|
  {
    if tokens != [] {
      LiveTexts(prefix, decode, start + 1, low, tokens[1..]);
    }
  }

  lemma {:induction false} LiveOf<S(!new)>(prefix: MarkerPrefix, decode: seq<Byte> -> Option<S>, start: nat, low: nat,
                                           tokens: seq<Token>, payload: seq<Byte>)
    requires forall t | t in tokens :: t.Text? || t == Marker(payload)
    ensures forall e | e in Live(prefix, decode, start, low, tokens) :: decode(payload) == Some(e)
    decreases |tokens|
  {
    if tokens != [] {
      LiveOf(prefix, decode, start + Width(prefix, tokens[0]), low, tokens[1..], payload);
    }
  }

  /** The daemon never mistakes another exit for its child's. When the incarnation that began
      at the boundary wrote `child` and then its marker, what came before left no marker
      open, and the child spelled no marker prefix, then every exit acted on, at any point of
      the reading, is the one in that marker. */
  lemma ExitsAreOwn<S(!new)>(prefix: MarkerPrefix, decode: seq<Byte> -> Option<S>, w: World<S>,
                             prior: seq<Byte>, child: seq<Byte>, payload: seq<Byte>)
    requires WorldOk(prefix, decode, w) && !w.trail.skipped && w.floor == |prior|
    requires w.history == prior + child + Encode(prefix, payload) && TERMINATOR !in payload
    requires w.trail.start <= |prior|
    requires NoPrefix(prefix, Parse(Scan(prefix), prior[w.trail.start..]).held + child)
    ensures forall e | e in w.trail.exits :: decode(payload) == Some(e)
  {
    var t, low := w.trail, Max(w.floor, w.trail.adopted);
    HeldOffset(prefix, t.consumed);
    if t.off <= |prior| {
      LiveBelow(prefix, decode, t.start, low, Parse(Scan(prefix), t.consumed).tokens);
    } else {
      OwnTokens(prefix, decode, t.start, low, prior, child, payload, t.off);
      assert t.consumed == w.history[t.start..t.off];
    }
  }

  lemma OwnTokens<S(!new)>(prefix: MarkerPrefix, decode: seq<Byte> -> Option<S>, start: nat, low: nat,
                           prior: seq<Byte>, child: seq<Byte>, payload: seq<Byte>, off: nat)
    requires start <= |prior| <= low && |prior| < off <= |prior + child + Encode(prefix, payload)|
    requires TERMINATOR !in payload && NoPrefix(prefix, Parse(Scan(prefix), prior[start..]).held + child)
    ensures var h := prior + child + Encode(prefix, payload);
            forall e | e in Live(prefix, decode, start, low, Parse(Scan(prefix), h[start..off]).tokens) ::
              decode(payload) == Some(e)
  {
    var h := prior + child + Encode(prefix, payload);
    var seen, later := prior[start..], h[|prior|..off];
    var was := Parse(Scan(prefix), seen);
    SplitStream(prior, child, Encode(prefix, payload), start, off);
    ScanIsStable(prefix);
    ParseConcat(Scan(prefix), seen, later);
    LaterTokens(prefix, was.held, child, payload, later, h[off..]);
    HeldOffset(prefix, seen);
    OwnLive(prefix, decode, start, low, was.tokens, Parse(Scan(prefix), was.held + later).tokens, payload);
  }

  lemma LaterTokens(prefix: MarkerPrefix, held: seq<Byte>, child: seq<Byte>, payload: seq<Byte>, later: seq<Byte>, rest: seq<Byte>)
    requires TERMINATOR !in payload && NoPrefix(prefix, held + child) && later + rest == child + Encode(prefix, payload)
    ensures forall t | t in Parse(Scan(prefix), held + later).tokens :: t.Text? || t == Marker(payload)
  {
    Assoc(held, later, rest);
    Assoc(held, child, Encode(prefix, payload));
    OnlyThatMarker(prefix, held + child, payload, held + later, rest);
  }

  lemma OwnLive<S(!new)>(prefix: MarkerPrefix, decode: seq<Byte> -> Option<S>, start: nat, low: nat,
                         before: seq<Token>, after: seq<Token>, payload: seq<Byte>)
    requires start + Length(prefix, before) <= low
    requires forall t | t in after :: t.Text? || t == Marker(payload)
    ensures forall e | e in Live(prefix, decode, start, low, before + after) :: decode(payload) == Some(e)
  {
    LiveConcat(prefix, decode, start, low, before, after);
    LiveBelow(prefix, decode, start, low, before);
    LiveOf(prefix, decode, start + Length(prefix, before), low, after, payload);
  }

  lemma SplitStream(a: seq<Byte>, b: seq<Byte>, c: seq<Byte>, start: nat, off: nat)
    requires start <= |a| < off <= |a + b + c|
    ensures var h := a + b + c;
            h[start..off] == a[start..] + h[|a|..off] && h[|a|..off] + h[off..] == b + c
  {
  }

  /** A run in which the daemon traps: it opens a short log, the holder outruns it by more
      than a chunk and rotates, and the daemon looks at the new file. */
  lemma TrapIsReachable<S(!new)>(prefix: MarkerPrefix, decode: seq<Byte> -> Option<S>, first: Byte, more: seq<Byte>)
    requires |more| == 100000
    ensures var w := Run<S>(prefix, decode, Empty(), [Append([first]), Restart(0, false), Append(more), Rotate(90001), Refresh(true)]);
            Trapped(w) && DrainStep(prefix, decode, w) == w
  {
    var w1 := Do<S>(prefix, decode, Empty(), Append([first]));
    var w2 := Do(prefix, decode, w1, Restart(0, false));
    assert w2.trail.off == 0 && w2.reader == Reader(0, 0, 1, 1);
    var w3 := Do(prefix, decode, w2, Append(more));
    var w4 := Do(prefix, decode, w3, Rotate(90001));
    assert |w4.files| == 2 && w4.files[1] == File(90001, 100001);
    var w5 := Do(prefix, decode, w4, Refresh(true));
    assert w5.reader == Reader(1, 90001, 100001, 1) && w5.trail.off == 0;
    var steps := [Append([first]), Restart(0, false), Append(more), Rotate(90001), Refresh(true)];
    var s1, s2, s3 := steps[1..], steps[1..][1..], steps[1..][1..][1..];
    var s4 := s3[1..];
    assert s1[0] == steps[1] && s2[0] == steps[2] && s3[0] == steps[3] && s4 == [steps[4]] && s4[1..] == [];
    assert Run(prefix, decode, w4, s4) == Run(prefix, decode, w5, []) == w5;
    assert Run(prefix, decode, w2, s2) == Run(prefix, decode, w3, s3) == Run(prefix, decode, w4, s4);
    assert Run<S>(prefix, decode, Empty(), steps) == Run(prefix, decode, w1, s1) == Run(prefix, decode, w2, s2);
  }

  lemma {:induction false} LengthConcat(prefix: MarkerPrefix, a: seq<Token>, b: seq<Token>)
    ensures Length(prefix, a + b) == Length(prefix, a) + Length(prefix, b)
  {
    if a == [] {
      Neutral(b);
    } else {
      LengthConcat(prefix, a[1..], b);
      TailOfConcat(a, b);
    }
  }
}
