/**
 Grid replication: the daemon diffs its screen against a baseline and broadcasts the
 rows that changed; every attached sink patches its own copy.
*/
module GridReplica {
  import opened Wrappers
  import opened GridCodec

  type Lines = seq<seq<Cell>>

  datatype Picture = Picture(cols: nat, lines: Lines)

  datatype Cursor = Cursor(col: int, row: int, visible: bool)

  // ---- diff and patch -------------------------------------------------------------

  /** The rows of `screen` in `from..to` that differ from `base`, in order. */
  function Diff(base: Lines, screen: Lines, from: nat, to: nat): seq<Changed>
    requires |base| == |screen| && to <= |screen|
  {
    if to <= from then []
    else
      var before := Diff(base, screen, from, to - 1);
      if base[to - 1] == screen[to - 1] then before else before + [Changed(to - 1, screen[to - 1])]
  }

  function All(screen: Lines, to: nat): seq<Changed>
    requires to <= |screen|
  {
    if to == 0 then [] else All(screen, to - 1) + [Changed(to - 1, screen[to - 1])]
  }

  /** A client puts every row it is sent in its place. */
  function Patch(lines: Lines, rows: seq<Changed>): Lines {
    if rows == [] then lines
    else
      var last := rows[|rows| - 1];
      var done := Patch(lines, rows[..|rows| - 1]);
      if 0 <= last.y < |done| then done[last.y := last.cells] else done
  }

  const BLANK := Cell(32, Default, Inverted, 0)

  function Blank(cols: nat, rows: nat): Lines {
    seq(rows, _ => Repeat(BLANK, cols))
  }

  /** What a client holds: the grid, and the cursor of the last update. */
  datatype Replica = Replica(picture: Picture, cursor: Cursor)

  function Apply(r: Replica, u: GridUpdate): Replica {
    var lines := if u.isFullSnapshot && u.rows >= 0 && u.cols >= 0 then Blank(u.cols, u.rows) else r.picture.lines;
    Replica(Picture(if u.cols >= 0 then u.cols else 0, Patch(lines, u.changedRows)),
            Cursor(u.cursorCol, u.cursorRow, u.cursorVisible))
  }

  /** `rows` up to `to` are the screen's, the others the base's. */
  function Splice(base: Lines, screen: Lines, from: nat, to: nat): (s: Lines)
    requires |base| == |screen|
    ensures |s| == |base|
  {
    seq(|base|, y requires 0 <= y < |base| => if from <= y < to then screen[y] else base[y])
  }

  lemma SpliceMore(base: Lines, screen: Lines, from: nat, y: nat)
    requires |base| == |screen| && from <= y < |base|
    ensures Splice(base, screen, from, y)[y] == base[y]
    ensures Splice(base, screen, from, y)[y := screen[y]] == Splice(base, screen, from, y + 1)
  {}

  lemma PatchSnoc(lines: Lines, rows: seq<Changed>, row: Changed)
    ensures Patch(lines, rows + [row]) ==
              var done := Patch(lines, rows); if 0 <= row.y < |done| then done[row.y := row.cells] else done
  {
    assert (rows + [row])[..|rows|] == rows;
  }

  /** Patching the next row, or leaving it when it is already right. */
  lemma PatchNext(base: Lines, screen: Lines, from: nat, y: nat, rows: seq<Changed>)
    requires |base| == |screen| && from <= y < |screen| && Patch(base, rows) == Splice(base, screen, from, y)
    ensures Patch(base, rows + [Changed(y, screen[y])]) == Splice(base, screen, from, y + 1)
    ensures base[y] == screen[y] ==> Patch(base, rows) == Splice(base, screen, from, y + 1)
  {
    PatchSnoc(base, rows, Changed(y, screen[y]));
    SpliceMore(base, screen, from, y);
  }

  lemma SpliceNothing(base: Lines, screen: Lines, from: nat)
    requires |base| == |screen|
    ensures Splice(base, screen, from, from) == base
  {}

  lemma {:induction false} PatchDiff(base: Lines, screen: Lines, from: nat, to: nat)
    requires |base| == |screen| && from <= to <= |screen|
    ensures Patch(base, Diff(base, screen, from, to)) == Splice(base, screen, from, to)
  {
    if to == from {
      SpliceNothing(base, screen, from);
    } else {
      PatchDiff(base, screen, from, to - 1);
      PatchNext(base, screen, from, to - 1, Diff(base, screen, from, to - 1));
    }
  }

  lemma {:induction false} PatchAll(base: Lines, screen: Lines, to: nat)
    requires |base| == |screen| && to <= |screen|
    ensures Patch(base, All(screen, to)) == Splice(base, screen, 0, to)
  {
    if to == 0 {
      SpliceNothing(base, screen, 0);
    } else {
      var y, rows := to - 1, All(screen, to - 1);
      PatchAll(base, screen, y);
      PatchNext(base, screen, 0, y, rows);
      assert All(screen, to) == rows + [Changed(y, screen[y])];
    }
  }

  ghost predicate Covers(base: Lines, screen: Lines, from: nat, to: nat)
    requires |base| == |screen|
  {
    forall y | 0 <= y < |base| && !(from <= y < to) :: base[y] == screen[y]
  }

  /** A diff limited to a range that covers every changed row is the full diff. */
  lemma {:induction false} DiffInRange(base: Lines, screen: Lines, from: nat, to: nat, n: nat)
    requires |base| == |screen| && to <= n <= |screen| && from <= n
    requires Covers(base, screen, from, to)
    ensures Diff(base, screen, 0, n) == Diff(base, screen, from, to)
  {
    if n == 0 {
    } else if to < n {
      if from == n {
        DiffNone(base, screen, n);
      } else {
        DiffInRange(base, screen, from, to, n - 1);
      }
    } else if from < to {
      DiffUpTo(base, screen, from, to);
    } else {
      DiffNone(base, screen, n);
    }
  }

  lemma {:induction false} DiffNone(base: Lines, screen: Lines, n: nat)
    requires |base| == |screen| && n <= |screen| && forall y | 0 <= y < n :: base[y] == screen[y]
    ensures Diff(base, screen, 0, n) == []
  {
    if n > 0 {
      DiffNone(base, screen, n - 1);
    }
  }

  lemma {:induction false} DiffUpTo(base: Lines, screen: Lines, from: nat, to: nat)
    requires |base| == |screen| && from <= to <= |screen| && forall y | 0 <= y < from :: base[y] == screen[y]
    ensures Diff(base, screen, 0, to) == Diff(base, screen, from, to)
  {
    if to == from {
      DiffNone(base, screen, to);
    } else {
      DiffUpTo(base, screen, from, to - 1);
    }
  }

  // ---- the session ----------------------------------------------------------------

  /** `base` is `None` when the next update must be a full one. */
  datatype Session = Session(screen: Picture, cursor: Cursor, base: Option<Picture>, lastSent: Option<Cursor>,
                             sinks: map<nat, Replica>, desynced: set<nat>)

  function Update(s: Session, full: bool): GridUpdate {
    var force := full || s.base.None? || |s.base.value.lines| != |s.screen.lines| || s.base.value.cols != s.screen.cols;
    var n := |s.screen.lines|;
    GridUpdate(s.screen.cols, n, s.cursor.col, s.cursor.row, s.cursor.visible, force,
               if force then All(s.screen.lines, n) else Diff(s.base.value.lines, s.screen.lines, 0, n))
  }

  /** Slow sinks are flagged and skipped, flagged ones skipped, the rest patched. */
  function Broadcast(s: Session, u: GridUpdate, slow: set<nat>): Session {
    s.(sinks := map id | id in s.sinks :: if id in slow || id in s.desynced then s.sinks[id] else Apply(s.sinks[id], u),
       desynced := s.desynced + (slow * s.sinks.Keys))
  }

  function Snapshot(s: Session): GridUpdate {
    Update(s, true)
  }

  /** Every flagged sink that drained gets the whole screen and loses its flag. */
  function Resync(s: Session, slow: set<nat>): Session {
    s.(sinks := map id | id in s.sinks ::
                  if id in s.desynced && id !in slow then Apply(s.sinks[id], Snapshot(s)) else s.sinks[id],
       desynced := s.desynced * slow * s.sinks.Keys)
  }

  datatype Move = Feed(lines: Lines, cursor: Cursor)
                | Resize(screen: Picture, cursor: Cursor)
                | Flush(slow: set<nat>, slowLater: set<nat>)
                | SendFull(slow: set<nat>)
                | Retry(slow: set<nat>)
                | Attach(id: nat, held: Replica)
                | Detach(id: nat)

  function Rebased(s: Session): Session { s.(base := Some(s.screen)) }

  function After(s: Session, m: Move): Session {
    match m
    case Feed(lines, cursor) =>
      if |lines| == |s.screen.lines| then s.(screen := s.screen.(lines := lines), cursor := cursor) else s
    case Resize(screen, cursor) => if screen.lines == [] then s else s.(screen := screen, cursor := cursor, base := None)
    case Flush(slow, slowLater) =>
      if s.sinks == map[] then s.(desynced := {})
      else
        var u := Update(s, false);
        var sent := u.changedRows != [] || s.lastSent != Some(s.cursor);
        var t := if sent then Broadcast(Rebased(s), u, slow).(lastSent := Some(s.cursor)) else Rebased(s);
        Resync(t, slowLater)
    case SendFull(slow) => Broadcast(Rebased(s), Update(s, true), slow)
    case Retry(slow) => if s.sinks == map[] then s else Resync(s, slow)
    case Attach(id, held) => Rebased(s).(sinks := s.sinks[id := Apply(held, Update(s, true))])
    case Detach(id) => s.(sinks := s.sinks - {id}, desynced := s.desynced - {id})
  }

  function Run(s: Session, moves: seq<Move>): Session
    decreases |moves|
  {
    if moves == [] then s else Run(After(s, moves[0]), moves[1..])
  }

  // ---- agreement ------------------------------------------------------------------

  predicate InSync(s: Session, id: nat) { id in s.sinks && id !in s.desynced }

  /** Every sink not flagged holds exactly `p`. */
  ghost predicate AllHold(s: Session, p: Picture) {
    forall id | id in s.sinks && id !in s.desynced :: s.sinks[id].picture == p
  }

  ghost predicate Agreed(s: Session) {
    && s.screen.lines != []
    && (s.base.Some? ==> |s.base.value.lines| == |s.screen.lines| && s.base.value.cols == s.screen.cols
                         && AllHold(s, s.base.value))
  }

  lemma ApplyFull(r: Replica, s: Session)
    ensures Apply(r, Update(s, true)).picture == s.screen
  {
    var n := |s.screen.lines|;
    var blank := Blank(s.screen.cols, n);
    PatchAll(blank, s.screen.lines, n);
    assert Splice(blank, s.screen.lines, 0, n) == s.screen.lines;
  }

  lemma ApplyUpdate(r: Replica, s: Session)
    requires Agreed(s) && (s.base.Some? ==> r.picture == s.base.value)
    ensures Apply(r, Update(s, false)).picture == s.screen
  {
    if s.base.None? {
      ApplyFull(r, s);
      assert Update(s, false) == Update(s, true);
    } else {
      var base, n := s.base.value.lines, |s.screen.lines|;
      PatchDiff(base, s.screen.lines, 0, n);
      assert Splice(base, s.screen.lines, 0, n) == s.screen.lines;
    }
  }

  /** An update that is not worth sending changes no row. */
  lemma NothingToSend(s: Session)
    requires Agreed(s) && Update(s, false).changedRows == []
    ensures s.base == Some(s.screen)
  {
    var n := |s.screen.lines|;
    if s.base.Some? {
      PatchDiff(s.base.value.lines, s.screen.lines, 0, n);
      assert Splice(s.base.value.lines, s.screen.lines, 0, n) == s.screen.lines;
    }
  }

  lemma BroadcastAgrees(s: Session, full: bool, slow: set<nat>)
    requires Agreed(s)
    ensures AllHold(Broadcast(Rebased(s), Update(s, full), slow), s.screen)
  {
    var t := Broadcast(Rebased(s), Update(s, full), slow);
    forall id | id in t.sinks && id !in t.desynced
      ensures t.sinks[id].picture == s.screen
    {
      if full {
        ApplyFull(s.sinks[id], s);
      } else {
        ApplyUpdate(s.sinks[id], s);
      }
    }
  }

  lemma ResyncAgrees(s: Session, slow: set<nat>)
    requires AllHold(s, s.screen)
    ensures AllHold(Resync(s, slow), s.screen)
  {
    forall id | id in s.sinks && id in s.desynced && id !in slow
      ensures Resync(s, slow).sinks[id].picture == s.screen
    {
      ApplyFull(s.sinks[id], s);
    }
  }

  lemma FlushAgrees(s: Session, slow: set<nat>, slowLater: set<nat>)
    requires Agreed(s) && s.sinks != map[]
    ensures var z := After(s, Flush(slow, slowLater));
            z.base == Some(z.screen) && z.screen == s.screen && AllHold(z, z.screen)
  {
    var u := Update(s, false);
    var sent := u.changedRows != [] || s.lastSent != Some(s.cursor);
    var t := if sent then Broadcast(Rebased(s), u, slow).(lastSent := Some(s.cursor)) else Rebased(s);
    if sent {
      BroadcastAgrees(s, false, slow);
    } else {
      NothingToSend(s);
    }
    ResyncAgrees(t, slowLater);
  }

  /** Nothing has changed on the screen since the last update was made. */
  predicate Clean(s: Session) { s.base == Some(s.screen) }

  predicate Repairs(s: Session, slow: set<nat>) {
    exists id :: id in s.sinks && id in s.desynced && id !in slow
  }

  predicate OtherInSync(s: Session, id: nat) {
    exists o :: o in s.sinks && InSync(s, o) && o != id
  }

  /** What a caller can check before a step that would put the sinks at risk. */
  ghost predicate Careful(s: Session, m: Move) {
    match m
    case Attach(id, _) => Clean(s) || !OtherInSync(s, id)
    case Retry(slow) => Clean(s) || s.base.None? || !Repairs(s, slow)
    case _ => true
  }

  /** Attaching keeps the other sinks right exactly when they hold the current screen. */
  lemma AttachExactly(s: Session, id: nat, held: Replica)
    requires Agreed(s)
    ensures Agreed(After(s, Attach(id, held))) <==>
              forall o | InSync(s, o) && o != id :: s.sinks[o].picture == s.screen
    ensures s.base.Some? ==> (Agreed(After(s, Attach(id, held))) <==> Careful(s, Attach(id, held)))
  {
    var z := After(s, Attach(id, held));
    ApplyFull(held, s);
    forall o | InSync(s, o) && o != id
      ensures InSync(z, o) && z.sinks[o] == s.sinks[o]
      ensures s.base.Some? ==> s.sinks[o].picture == s.base.value
    {}
    if forall o | InSync(s, o) && o != id :: s.sinks[o].picture == s.screen {
      forall o | InSync(z, o)
        ensures z.sinks[o].picture == s.screen
      {
        assert o != id ==> InSync(s, o);
      }
    }
  }

  /** A retry keeps agreement exactly when the baseline is current, is void, or nothing is
      repaired. */
  lemma RetryExactly(s: Session, slow: set<nat>)
    requires Agreed(s)
    ensures Agreed(After(s, Retry(slow))) <==> Careful(s, Retry(slow))
  {
    var z := After(s, Retry(slow));
    forall id | id in s.sinks && id in s.desynced && id !in slow
      ensures InSync(z, id) && z.sinks[id].picture == s.screen
    {
      ApplyFull(s.sinks[id], s);
    }
    forall id | InSync(s, id)
      ensures z.sinks[id] == s.sinks[id]
    {}
  }

  lemma StepAgrees(s: Session, m: Move)
    requires Agreed(s) && Careful(s, m)
    ensures Agreed(After(s, m))
  {
    match m
    case Flush(slow, slowLater) =>
      if s.sinks != map[] {
        FlushAgrees(s, slow, slowLater);
      }
    case SendFull(slow) => BroadcastAgrees(s, true, slow);
    case Retry(slow) => RetryExactly(s, slow);
    case Attach(id, held) =>
      AttachExactly(s, id, held);
      if !OtherInSync(s, id) {
        forall o | InSync(s, o) && o != id
          ensures false
        {
          assert OtherInSync(s, id);
        }
      }
    case _ =>
  }

  ghost predicate AllCareful(s: Session, moves: seq<Move>)
    decreases |moves|
  {
    moves == [] || (Careful(s, moves[0]) && AllCareful(After(s, moves[0]), moves[1..]))
  }

  lemma {:induction false} RunAgrees(s: Session, moves: seq<Move>)
    requires Agreed(s) && AllCareful(s, moves)
    ensures Agreed(Run(s, moves))
    decreases |moves|
  {
    if moves != [] {
      StepAgrees(s, moves[0]);
      RunAgrees(After(s, moves[0]), moves[1..]);
    }
  }

  /** Whatever was dropped, delayed, repaired or resized on the way: after a flush every
      sink not flagged shows the daemon's own screen. */
  lemma ReplicasAgree(s: Session, moves: seq<Move>, slow: set<nat>, slowLater: set<nat>, id: nat)
    requires Agreed(s) && AllCareful(s, moves)
    requires InSync(After(Run(s, moves), Flush(slow, slowLater)), id)
    ensures var z := After(Run(s, moves), Flush(slow, slowLater)); z.sinks[id].picture == z.screen
  {
    RunAgrees(s, moves);
    var before := Run(s, moves);
    if before.sinks != map[] {
      FlushAgrees(before, slow, slowLater);
    }
  }

  /** Attaching while rows are dirty leaves a sink wrong through the next flush. */
  lemma AttachTrap(s: Session, id: nat, held: Replica, o: nat)
    requires Agreed(s) && s.base.Some? && !Clean(s) && InSync(s, o) && o != id && s.lastSent == Some(s.cursor)
    ensures var z := After(After(s, Attach(id, held)), Flush({}, {}));
            InSync(z, o) && z.screen == s.screen && z.sinks[o].picture != z.screen
  {
    var t := After(s, Attach(id, held));
    DiffNone(t.base.value.lines, t.screen.lines, |t.screen.lines|);
    assert Update(t, false).changedRows == [];
    assert o in t.sinks && t.sinks[o] == s.sinks[o];
  }

  /** A retry with an old baseline: the row that changes back is never resent. */
  lemma RetryTrap(s: Session, id: nat)
    requires Agreed(s) && s.base.Some? && !Clean(s) && id in s.sinks && id in s.desynced && s.lastSent == Some(s.cursor)
    ensures var t := After(After(s, Retry({})), Feed(s.base.value.lines, s.cursor));
            var z := After(t, Flush({}, {}));
            InSync(z, id) && z.screen == s.base.value && z.sinks[id].picture != z.screen
  {
    var r := After(s, Retry({}));
    ApplyFull(s.sinks[id], s);
    assert id in r.sinks && r.sinks[id].picture == s.screen && r.desynced == {};
    var t := After(r, Feed(s.base.value.lines, s.cursor));
    DiffNone(t.base.value.lines, t.screen.lines, |t.screen.lines|);
    assert Update(t, false).changedRows == [];
  }

  // ---- the cursor -----------------------------------------------------------------

  /** Every sink not flagged shows the cursor last broadcast: what the flush gate assumes. */
  ghost predicate CursorOK(s: Session) {
    s.lastSent.Some? ==> forall id | InSync(s, id) :: s.sinks[id].cursor == s.lastSent.value
  }

  /** The cursor is where it was last broadcast, or never was. */
  predicate CursorCurrent(s: Session) {
    s.lastSent == None || s.lastSent == Some(s.cursor)
  }

  /** What a caller can check before a step that delivers a cursor the gate is not told of:
      an attach, a full broadcast, a repair outside a flush. */
  ghost predicate CursorCareful(s: Session, m: Move) {
    match m
    case Attach(id, _) => CursorCurrent(s) || id in s.desynced
    case SendFull(slow) => CursorCurrent(s) || forall id | InSync(s, id) :: id in slow
    case Retry(slow) => CursorCurrent(s) || !Repairs(s, slow)
    case _ => true
  }

  ghost predicate AllShow(s: Session, c: Cursor) {
    forall id | InSync(s, id) :: s.sinks[id].cursor == c
  }

  /** A flush brings every sink not flagged to the emulator's cursor. */
  lemma FlushCursor(s: Session, slow: set<nat>, slowLater: set<nat>)
    requires CursorOK(s) && s.sinks != map[]
    ensures var z := After(s, Flush(slow, slowLater)); CursorOK(z) && z.cursor == s.cursor && AllShow(z, z.cursor)
  {
    var u := Update(s, false);
    var sent := u.changedRows != [] || s.lastSent != Some(s.cursor);
    var t := if sent then Broadcast(Rebased(s), u, slow).(lastSent := Some(s.cursor)) else Rebased(s);
    assert AllShow(t, s.cursor) by {
      forall id | InSync(t, id)
        ensures t.sinks[id].cursor == s.cursor
      {
        assert InSync(s, id);
      }
    }
    forall id | InSync(Resync(t, slowLater), id)
      ensures Resync(t, slowLater).sinks[id].cursor == s.cursor
    {
      assert id !in t.desynced ==> InSync(t, id);
    }
  }

  lemma SendFullCursor(s: Session, slow: set<nat>)
    requires CursorOK(s)
    ensures CursorOK(After(s, SendFull(slow))) <==> CursorCareful(s, SendFull(slow))
  {
    var z := After(s, SendFull(slow));
    forall id | InSync(s, id) && id !in slow
      ensures InSync(z, id) && z.sinks[id].cursor == s.cursor
    {}
    forall id | InSync(z, id)
      ensures InSync(s, id) && id !in slow
    {}
  }

  lemma RetryCursor(s: Session, slow: set<nat>)
    requires CursorOK(s)
    ensures CursorOK(After(s, Retry(slow))) <==> CursorCareful(s, Retry(slow))
  {
    var z := After(s, Retry(slow));
    forall id | id in s.sinks && id in s.desynced && id !in slow
      ensures InSync(z, id) && z.sinks[id].cursor == s.cursor
    {}
    forall id | InSync(s, id)
      ensures InSync(z, id) && z.sinks[id] == s.sinks[id]
    {}
    forall id | InSync(z, id)
      ensures InSync(s, id) || (id in s.desynced && id !in slow)
    {}
  }

  lemma AttachCursor(s: Session, id: nat, held: Replica)
    requires CursorOK(s)
    ensures CursorOK(After(s, Attach(id, held))) <==> CursorCareful(s, Attach(id, held))
  {
    var z := After(s, Attach(id, held));
    assert id !in s.desynced ==> InSync(z, id) && z.sinks[id].cursor == s.cursor;
    forall o | InSync(z, o) && o != id
      ensures InSync(s, o) && z.sinks[o] == s.sinks[o]
    {}
  }

  /** Whatever the step, it keeps the flush gate sound exactly when it was careful. */
  lemma CursorExactly(s: Session, m: Move)
    requires CursorOK(s)
    ensures CursorOK(After(s, m)) <==> CursorCareful(s, m)
  {
    match m
    case Flush(slow, slowLater) =>
      if s.sinks != map[] {
        FlushCursor(s, slow, slowLater);
      }
    case SendFull(slow) => SendFullCursor(s, slow);
    case Retry(slow) => RetryCursor(s, slow);
    case Attach(id, held) => AttachCursor(s, id, held);
    case Detach(id) =>
      forall o | InSync(After(s, m), o)
        ensures InSync(s, o)
      {}
    case _ =>
  }

  ghost predicate AllCursorCareful(s: Session, moves: seq<Move>)
    decreases |moves|
  {
    moves == [] || (CursorCareful(s, moves[0]) && AllCursorCareful(After(s, moves[0]), moves[1..]))
  }

  lemma {:induction false} RunCursor(s: Session, moves: seq<Move>)
    requires CursorOK(s) && AllCursorCareful(s, moves)
    ensures CursorOK(Run(s, moves))
    decreases |moves|
  {
    if moves != [] {
      CursorExactly(s, moves[0]);
      RunCursor(After(s, moves[0]), moves[1..]);
    }
  }

  /** After any such run and a flush, every sink not flagged shows the emulator's cursor. */
  lemma CursorsAgree(s: Session, moves: seq<Move>, slow: set<nat>, slowLater: set<nat>, id: nat)
    requires CursorOK(s) && AllCursorCareful(s, moves)
    requires InSync(After(Run(s, moves), Flush(slow, slowLater)), id)
    ensures var z := After(Run(s, moves), Flush(slow, slowLater)); z.sinks[id].cursor == z.cursor
  {
    RunCursor(s, moves);
    var before := Run(s, moves);
    if before.sinks != map[] {
      FlushCursor(before, slow, slowLater);
    }
  }

  /** Once the gate is unsound, the screen going back to what was last sent is never shown:
      the sink that knows another cursor keeps it through the flush. */
  lemma CursorTrap(s: Session, id: nat)
    requires Agreed(s) && s.base.Some? && s.lastSent.Some?
    requires InSync(s, id) && s.sinks[id].cursor != s.lastSent.value
    ensures var z := After(After(s, Feed(s.base.value.lines, s.lastSent.value)), Flush({}, {}));
            InSync(z, id) && z.sinks[id].cursor != z.cursor
  {
    var t := After(s, Feed(s.base.value.lines, s.lastSent.value));
    DiffNone(t.base.value.lines, t.screen.lines, |t.screen.lines|);
    assert Update(t, false).changedRows == [];
  }

  // ---- nobody is left behind ------------------------------------------------------

  /** Whether a flush has anything to say: rows, or a cursor other than the last broadcast. */
  predicate HasNews(s: Session) {
    s.base != Some(s.screen) || s.lastSent != Some(s.cursor)
  }

  lemma NewsIsSent(s: Session)
    requires Agreed(s)
    ensures HasNews(s) <==> Update(s, false).changedRows != [] || s.lastSent != Some(s.cursor)
  {
    if s.base == Some(s.screen) {
      DiffNone(s.screen.lines, s.screen.lines, |s.screen.lines|);
    } else if Update(s, false).changedRows == [] {
      NothingToSend(s);
    }
  }

  /** From any state: a flush leaves in step everyone who has drained when repairs go out, and
      flags nobody else than who fell behind. */
  lemma FlushRepairs(s: Session, slow: set<nat>, slowLater: set<nat>, id: nat)
    requires s.sinks != map[]
    ensures var z := After(s, Flush(slow, slowLater));
            && z.sinks.Keys == s.sinks.Keys
            && (id in s.sinks && id !in slowLater ==> InSync(z, id))
            && (id in z.desynced ==> id in s.sinks && id in slowLater && (id in s.desynced || id in slow))
            && (id in s.sinks && id in s.desynced && id in slowLater ==> id in z.desynced)
  {
  }

  /** Exactly who is flagged after a flush: the sinks still slow when repairs go out that were
      flagged before, or were too slow for this flush's news. Everyone else is in step. */
  lemma FlushFlags(s: Session, slow: set<nat>, slowLater: set<nat>, id: nat)
    requires Agreed(s) && s.sinks != map[]
    ensures var z := After(s, Flush(slow, slowLater));
            && z.sinks.Keys == s.sinks.Keys
            && (id in z.desynced <==> id in s.sinks && id in slowLater && (id in s.desynced || (id in slow && HasNews(s))))
            && (id in s.sinks && id !in slowLater ==> InSync(z, id))
            && z.lastSent == Some(s.cursor)
  {
    NewsIsSent(s);
  }

  /** A sink that has drained by the time repairs go out shows the emulator's rows and cursor
      after the flush, flagged before or not. */
  lemma DrainedSinkIsRepaired(s: Session, slow: set<nat>, slowLater: set<nat>, id: nat)
    requires Agreed(s) && CursorOK(s) && id in s.sinks && id !in slowLater
    ensures var z := After(s, Flush(slow, slowLater));
            InSync(z, id) && z.sinks[id].picture == z.screen == s.screen && z.sinks[id].cursor == z.cursor == s.cursor
  {
    assert s.sinks != map[];
    FlushFlags(s, slow, slowLater, id);
    FlushAgrees(s, slow, slowLater);
    FlushCursor(s, slow, slowLater);
  }

  /** The same of the other steps that send: who is flagged, and what the others now show. */
  lemma SendFullReaches(s: Session, slow: set<nat>, id: nat)
    requires id in s.sinks
    ensures var z := After(s, SendFull(slow));
            && id in z.sinks && (id in z.desynced <==> id in s.desynced || id in slow)
            && (InSync(z, id) ==> z.sinks[id].picture == s.screen && z.sinks[id].cursor == s.cursor)
            && (!InSync(z, id) ==> z.sinks[id] == s.sinks[id])
  {
    ApplyFull(s.sinks[id], s);
  }

  lemma RetryReaches(s: Session, slow: set<nat>, id: nat)
    requires id in s.sinks
    ensures var z := After(s, Retry(slow));
            && id in z.sinks && (id in z.desynced <==> id in s.desynced && id in slow)
            && (id in s.desynced && id !in slow ==> z.sinks[id].picture == s.screen && z.sinks[id].cursor == s.cursor)
            && (id !in s.desynced || id in slow ==> z.sinks[id] == s.sinks[id])
  {
    ApplyFull(s.sinks[id], s);
  }

  lemma AttachReaches(s: Session, id: nat, held: Replica)
    ensures var z := After(s, Attach(id, held));
            && z.sinks.Keys == s.sinks.Keys + {id} && z.desynced == s.desynced
            && z.sinks[id].picture == s.screen && z.sinks[id].cursor == s.cursor
            && (forall o | o in s.sinks && o != id :: z.sinks[o] == s.sinks[o])
            && z.base == Some(s.screen)
  {
    ApplyFull(held, s);
  }

  // ---- what an update carries -----------------------------------------------------

  lemma {:induction false} DiffCarries(base: Lines, screen: Lines, from: nat, to: nat, row: Changed)
    requires |base| == |screen| && from <= to <= |screen|
    ensures row in Diff(base, screen, from, to) <==>
              from <= row.y < to && row.cells == screen[row.y] && base[row.y] != screen[row.y]
  {
    if to > from {
      DiffCarries(base, screen, from, to - 1, row);
    }
  }

  lemma {:induction false} AllCarries(screen: Lines, to: nat, row: Changed)
    requires to <= |screen|
    ensures row in All(screen, to) <==> 0 <= row.y < to && row.cells == screen[row.y]
  {
    if to > 0 {
      AllCarries(screen, to - 1, row);
    }
  }

  ghost predicate Ascending(rows: seq<Changed>, below: int) {
    (forall i | 0 <= i < |rows| :: rows[i].y < below) && (forall i, j | 0 <= i < j < |rows| :: rows[i].y < rows[j].y)
  }

  lemma {:induction false} DiffAscends(base: Lines, screen: Lines, from: nat, to: nat)
    requires |base| == |screen| && from <= to <= |screen|
    ensures Ascending(Diff(base, screen, from, to), to)
  {
    if to > from {
      DiffAscends(base, screen, from, to - 1);
    }
  }

  lemma {:induction false} AllAscends(screen: Lines, to: nat)
    requires to <= |screen|
    ensures Ascending(All(screen, to), to)
  {
    if to > 0 {
      AllAscends(screen, to - 1);
    }
  }

  /** An update without its making: full when asked or when there is no baseline of this
      geometry, and then with every row; else with exactly the rows that differ; each once,
      top to bottom, with the emulator's size and cursor. */
  ghost predicate Carries(screen: Picture, cursor: Cursor, base: Option<Picture>, full: bool, u: GridUpdate) {
    var n := |screen.lines|;
    var force := full || base.None? || |base.value.lines| != n || base.value.cols != screen.cols;
    && u.cols == screen.cols && u.rows == n
    && u.cursorCol == cursor.col && u.cursorRow == cursor.row && u.cursorVisible == cursor.visible
    && u.isFullSnapshot == force
    && Ascending(u.changedRows, n)
    && forall row: Changed :: row in u.changedRows <==>
         0 <= row.y < n && row.cells == screen.lines[row.y] &&
         (force || base.value.lines[row.y] != screen.lines[row.y])
  }

  lemma UpdateCarries(s: Session, full: bool)
    ensures Carries(s.screen, s.cursor, s.base, full, Update(s, full))
  {
    var n := |s.screen.lines|;
    var force := full || s.base.None? || |s.base.value.lines| != n || s.base.value.cols != s.screen.cols;
    AllAscends(s.screen.lines, n);
    if !force {
      DiffAscends(s.base.value.lines, s.screen.lines, 0, n);
    }
    forall row: Changed
      ensures row in Update(s, full).changedRows <==>
                0 <= row.y < n && row.cells == s.screen.lines[row.y] &&
                (force || s.base.value.lines[row.y] != s.screen.lines[row.y])
    {
      AllCarries(s.screen.lines, n, row);
      if !force {
        DiffCarries(s.base.value.lines, s.screen.lines, 0, n, row);
      }
    }
  }
}
