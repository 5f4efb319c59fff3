/**
 The emulator's side of grid replication: the last grid emitted, kept flat, and the row
 diff against it inside the emulator's own dirty range.
*/
module HeadlessGrid {
  import opened Wrappers
  import opened GridCodec
  import opened GridReplica

  /** The emulator: its rows, all of one width, and the rows touched since last asked. */
  datatype Terminal = Terminal(cols: nat, lines: Lines, cursor: Cursor, dirty: Option<Range>) {
    function Shown(): Picture { Picture(cols, lines) }
  }

  datatype Range = Range(startY: int, endY: int)

  ghost predicate Rectangular(cols: nat, lines: Lines) {
    forall y | 0 <= y < |lines| :: |lines[y]| == cols
  }

  // ---- a flat array of rows -------------------------------------------------------

  lemma RowFits(y: nat, rows: nat, cols: nat)
    requires y < rows
    ensures y * cols + cols <= rows * cols
  {
    assert (rows - y - 1) * cols >= 0;
  }

  function Row(cells: seq<Cell>, cols: nat, rows: nat, y: nat): seq<Cell>
    requires |cells| == rows * cols && y < rows
  {
    RowFits(y, rows, cols);
    cells[y * cols..y * cols + cols]
  }

  function Rows(cells: seq<Cell>, cols: nat, rows: nat): (lines: Lines)
    requires |cells| == rows * cols
    ensures |lines| == rows && forall y | 0 <= y < rows :: lines[y] == Row(cells, cols, rows, y)
  {
    seq(rows, y requires 0 <= y < rows => Row(cells, cols, rows, y))
  }

  /** Overwriting one stretch of `cols` cells leaves the rows before and after alone. */
  lemma SplitRow(cells: seq<Cell>, cols: nat, rows: nat, y: nat, z: nat, row: seq<Cell>)
    requires |cells| == rows * cols && y < rows && z < rows && |row| == cols
    requires y * cols + cols <= |cells|
    ensures var now := cells[..y * cols] + row + cells[y * cols + cols..];
            |now| == rows * cols && Row(now, cols, rows, z) == if z == y then row else Row(cells, cols, rows, z)
  {
    RowFits(z, rows, cols);
    if z < y {
      RowFits(z, y, cols);
    } else if y < z {
      RowFits(y, z, cols);
    }
  }

  lemma SetRow(cells: seq<Cell>, cols: nat, rows: nat, y: nat, row: seq<Cell>)
    requires |cells| == rows * cols && y < rows && |row| == cols && y * cols + cols <= |cells|
    ensures var now := cells[..y * cols] + row + cells[y * cols + cols..];
            |now| == rows * cols && Rows(now, cols, rows) == Rows(cells, cols, rows)[y := row]
  {
    SplitRow(cells, cols, rows, y, y, row);
    var now := cells[..y * cols] + row + cells[y * cols + cols..];
    forall z | 0 <= z < rows
      ensures Rows(now, cols, rows)[z] == Rows(cells, cols, rows)[y := row][z]
    {
      SplitRow(cells, cols, rows, y, z, row);
    }
  }

  /** `cells` is the rows of `lines`, one after the other. */
  ghost predicate Flat(cells: seq<Cell>, cols: nat, rows: nat, lines: Lines) {
    |cells| == rows * cols && lines == Rows(cells, cols, rows)
  }

  lemma FlatSet(cells: seq<Cell>, cols: nat, rows: nat, lines: Lines, y: nat, row: seq<Cell>)
    requires Flat(cells, cols, rows, lines) && y < rows && |row| == cols && y * cols + cols <= |cells|
    ensures Flat(cells[..y * cols] + row + cells[y * cols + cols..], cols, rows, lines[y := row])
  {
    SetRow(cells, cols, rows, y, row);
  }

  lemma FlatRow(cells: seq<Cell>, cols: nat, rows: nat, lines: Lines, y: nat)
    requires Flat(cells, cols, rows, lines) && y < rows
    ensures |lines| == rows && y * cols + cols <= |cells| && lines[y] == cells[y * cols..y * cols + cols]
  {
    RowFits(y, rows, cols);
  }

  lemma FlatBlank(cols: nat, rows: nat, cells: seq<Cell>)
    requires |cells| == rows * cols
    ensures Flat(cells, cols, rows, Rows(cells, cols, rows))
  {}

  /** The rows an update carries: all of them, or those that differ. */
  function Changes(base: Lines, screen: Lines, from: nat, to: nat, force: bool): seq<Changed>
    requires |base| == |screen| && to <= |screen|
  {
    if force then All(screen, to) else Diff(base, screen, from, to)
  }

  lemma ChangesMore(base: Lines, screen: Lines, from: nat, y: nat, force: bool)
    requires |base| == |screen| && from <= y < |screen| && (force ==> from == 0)
    ensures Changes(base, screen, from, from, force) == []
    ensures Changes(base, screen, from, y + 1, force) ==
              Changes(base, screen, from, y, force)
              + if force || base[y] != screen[y] then [Changed(y, screen[y])] else []
  {}

  lemma SpliceNone(base: Lines, screen: Lines, from: nat, to: nat)
    requires |base| == |screen| && to <= from
    ensures Splice(base, screen, from, to) == base
  {}

  lemma SpliceCovered(base: Lines, screen: Lines, from: nat, to: nat)
    requires |base| == |screen| && Covers(base, screen, from, to)
    ensures Splice(base, screen, from, to) == screen
  {}

  /** One more cell of a row compared with a stretch of `cells`. */
  lemma SameSoFar(cells: seq<Cell>, row: seq<Cell>, base: nat, x: nat)
    requires x < |row| && base + |row| <= |cells| && cells[base..base + x] == row[..x]
    ensures cells[base + x] == row[x] ==> cells[base..base + (x + 1)] == row[..x + 1]
    ensures cells[base + x] != row[x] ==> cells[base..base + |row|] != row
  {
    if cells[base + x] == row[x] {
      assert cells[base..base + (x + 1)] == cells[base..base + x] + [cells[base + x]];
      assert row[..x + 1] == row[..x] + [row[x]];
    } else {
      assert cells[base..base + |row|][x] == cells[base + x];
    }
  }

  function Low(dirty: Option<Range>): nat {
    if dirty.None? || dirty.value.startY < 0 then 0 else dirty.value.startY
  }

  function High(dirty: Option<Range>, rows: nat): nat {
    if dirty.None? || dirty.value.endY < 0 then 0
    else if dirty.value.endY + 1 < rows then dirty.value.endY + 1 else rows
  }

  function Union(dirty: Option<Range>, touched: Range): Range {
    match dirty
    case None => touched
    case Some(r) => Range(if r.startY < touched.startY then r.startY else touched.startY,
                          if r.endY > touched.endY then r.endY else touched.endY)
  }

  lemma CoversMore(base: Lines, before: Lines, after: Lines, dirty: Option<Range>, touched: Range)
    requires |base| == |before| == |after| && 0 <= touched.startY <= touched.endY < |after|
    requires Covers(base, before, Low(dirty), High(dirty, |before|))
    requires Covers(before, after, touched.startY, touched.endY + 1)
    ensures var all := Some(Union(dirty, touched)); Covers(base, after, Low(all), High(all, |after|))
  {
    var all := Some(Union(dirty, touched));
    forall y | 0 <= y < |base| && !(Low(all) <= y < High(all, |after|))
      ensures base[y] == after[y]
    {
      assert base[y] == before[y] && before[y] == after[y];
    }
  }

  /** Inside a range that covers the changes, the diff and the new baseline are those of
      the whole screen. */
  lemma RangeIsEnough(base: Lines, screen: Lines, from: nat, to: nat, force: bool)
    requires |base| == |screen| && from <= to <= |screen|
    requires if force then from == 0 && to == |screen| else Covers(base, screen, from, to)
    ensures Splice(base, screen, from, to) == screen
    ensures !force ==> Diff(base, screen, 0, |screen|) == Diff(base, screen, from, to)
  {
    SpliceCovered(base, screen, from, to);
    if !force {
      DiffInRange(base, screen, from, to, |screen|);
    }
  }

  class HeadlessScreen {
    var terminal: Terminal
    var lastCells: seq<Cell>
    var lastCols: nat
    var lastRows: nat
    var rowScratch: seq<Cell>
    ghost var lastLines: Lines

    ghost predicate Valid()
      reads this
    {
      && Rectangular(terminal.cols, terminal.lines) && terminal.lines != []
      && (lastRows == 0 || Flat(lastCells, lastCols, lastRows, lastLines))
    }

    predicate SameGeometry()
      reads this
    {
      lastRows == |terminal.lines| && lastCols == terminal.cols
    }

    /** The baseline, or `None` when the next update must be full. */
    ghost function Base(): Option<Picture>
      reads this
      requires Valid()
    {
      if SameGeometry() then Some(Picture(lastCols, lastLines)) else None
    }

    /** The dirty range holds every row that is not as it was last sent. */
    ghost predicate Covered()
      reads this
      requires Valid()
    {
      Base().Some? ==> Covers(Base().value.lines, terminal.lines, Low(terminal.dirty), High(terminal.dirty, |terminal.lines|))
    }

    /** The session's view of this screen. */
    ghost function View(): Session
      reads this
      requires Valid()
    {
      Session(terminal.Shown(), terminal.cursor, Base(), None, map[], {})
    }

    constructor (terminal: Terminal)
      requires Rectangular(terminal.cols, terminal.lines) && terminal.lines != []
      ensures Valid() && Base() == None && this.terminal == terminal
    {
      this.terminal := terminal;
      lastCells, lastCols, lastRows, rowScratch, lastLines := [], 0, 0, [], [];
    }

    /** The program paints: the emulator's range grows to cover what changed. */
    method Feed(lines: Lines, cursor: Cursor, touched: Range)
      requires Valid() && Covered() && |lines| == |terminal.lines| && Rectangular(terminal.cols, lines)
      requires 0 <= touched.startY <= touched.endY < |lines|
      requires Covers(terminal.lines, lines, touched.startY, touched.endY + 1)
      modifies this`terminal
      ensures Valid() && Covered() && Base() == old(Base())
      ensures terminal.Shown() == Picture(old(terminal.cols), lines) && terminal.cursor == cursor
    {
      var dirty := Union(terminal.dirty, touched);
      if SameGeometry() {
        CoversMore(lastLines, terminal.lines, lines, terminal.dirty, touched);
      }
      terminal := terminal.(lines := lines, cursor := cursor, dirty := Some(dirty));
    }

    /** A new geometry, or a restored screen: no baseline until the next update. */
    method Resize(terminal: Terminal)
      requires Rectangular(terminal.cols, terminal.lines) && terminal.lines != []
      modifies this`terminal, this`lastCols, this`lastRows
      ensures Valid() && Covered() && Base() == None && this.terminal == terminal
    {
      this.terminal := terminal;
      lastCols, lastRows := 0, 0;
    }

    /** The rows changed since the last call, or all of them; the baseline follows. */
    method GridUpdate(full: bool) returns (u: GridUpdate)
      requires Valid() && Covered()
      modifies this
      ensures Valid()
      ensures terminal == old(terminal).(dirty := None)
      ensures u == Update(old(View()), full)
      ensures Carries(old(terminal).Shown(), old(terminal).cursor, old(Base()), full, u)
      ensures Base() == Some(terminal.Shown())
    {
      UpdateCarries(View(), full);
      var cols, rows := terminal.cols, |terminal.lines|;
      var dirty := terminal.dirty;
      terminal := terminal.(dirty := None);
      var forceFull := full || !SameGeometry();
      Regeometry();
      if |rowScratch| != cols {
        rowScratch := Repeat(BLANK, cols);
      }
      var from := if forceFull then 0 else Low(dirty);
      var to := if forceFull then rows else High(dirty, rows);
      if from > to {
        from := to;
      }
      ghost var base := lastLines;
      var changed := Scan(from, to, forceFull);
      RangeIsEnough(base, terminal.lines, from, to, forceFull);
      u := GridCodec.GridUpdate(cols, rows, terminal.cursor.col, terminal.cursor.row, terminal.cursor.visible,
                                forceFull, changed);
    }

    /** A new geometry starts from blank cells. */
    method Regeometry()
      requires Valid()
      modifies this`lastCells, this`lastCols, this`lastRows, this`lastLines
      ensures Valid() && SameGeometry() && |lastLines| == |terminal.lines|
      ensures old(SameGeometry()) ==> lastLines == old(lastLines)
    {
      if !SameGeometry() {
        lastCells := Repeat(BLANK, |terminal.lines| * terminal.cols);
        lastCols := terminal.cols;
        lastRows := |terminal.lines|;
        FlatBlank(lastCols, lastRows, lastCells);
        lastLines := Rows(lastCells, lastCols, lastRows);
      }
    }

    method Scan(from: nat, to: nat, forceFull: bool) returns (changed: seq<Changed>)
      requires Valid() && SameGeometry() && |rowScratch| == terminal.cols && from <= to <= lastRows == |lastLines|
      requires forceFull ==> from == 0
      modifies this`lastCells, this`rowScratch, this`lastLines
      ensures Valid() && |lastLines| == lastRows
      ensures lastLines == Splice(old(lastLines), terminal.lines, from, to)
      ensures changed == Changes(old(lastLines), terminal.lines, from, to, forceFull)
    {
      changed := [];
      var y := from;
      ghost var base := lastLines;
      SpliceNone(base, terminal.lines, from, from);
      while y < to
        invariant Valid() && |rowScratch| == terminal.cols && |lastLines| == lastRows
        invariant from <= y <= to
        invariant lastLines == Splice(base, terminal.lines, from, y)
        invariant changed == Changes(base, terminal.lines, from, y, forceFull)
      {
        SpliceMore(base, terminal.lines, from, y);
        ChangesMore(base, terminal.lines, from, y, forceFull);
        var rowChanged := ScanRow(y, forceFull);
        if rowChanged {
          changed := changed + [Changed(y, rowScratch)];
        }
        y := y + 1;
      }
    }

    /** Compares one row with the baseline and, if it changed, moves the baseline. */
    method ScanRow(y: nat, forceFull: bool) returns (rowChanged: bool)
      requires Valid() && SameGeometry() && |rowScratch| == terminal.cols && y < lastRows == |lastLines|
      modifies this`lastCells, this`rowScratch, this`lastLines
      ensures Valid() && rowScratch == terminal.lines[y]
      ensures rowChanged <==> forceFull || old(lastLines)[y] != terminal.lines[y]
      ensures lastLines == old(lastLines)[y := terminal.lines[y]]
    {
      FillRow(y);
      FlatRow(lastCells, lastCols, lastRows, lastLines, y);
      rowChanged := forceFull;
      if !rowChanged {
        rowChanged := Differs(y);
      }
      if rowChanged {
        FlatSet(lastCells, lastCols, lastRows, lastLines, y, rowScratch);
        StoreRow(y);
      }
      lastLines := lastLines[y := rowScratch];
    }

    method Differs(y: nat) returns (rowChanged: bool)
      requires |rowScratch| == lastCols && y * lastCols + lastCols <= |lastCells|
      ensures rowChanged <==> lastCells[y * lastCols..y * lastCols + lastCols] != rowScratch
    {
      var base := y * lastCols;
      var x := 0;
      while x < lastCols
        invariant x <= lastCols && lastCells[base..base + x] == rowScratch[..x]
      {
        SameSoFar(lastCells, rowScratch, base, x);
        if rowScratch[x] != lastCells[base + x] {
          return true;
        }
        x := x + 1;
      }
      return false;
    }

    method FillRow(y: nat)
      requires Valid() && |rowScratch| == terminal.cols && y < |terminal.lines|
      modifies this`rowScratch
      ensures rowScratch == terminal.lines[y]
    {
      var x := 0;
      while x < terminal.cols
        invariant x <= terminal.cols == |rowScratch|
        invariant rowScratch[..x] == terminal.lines[y][..x]
      {
        rowScratch := rowScratch[x := terminal.lines[y][x]];
        x := x + 1;
      }
    }

    method StoreRow(y: nat)
      requires y * lastCols + lastCols <= |lastCells| && |rowScratch| == lastCols
      modifies this`lastCells
      ensures lastCells == old(lastCells[..y * lastCols] + rowScratch + lastCells[y * lastCols + lastCols..])
    {
      var base := y * lastCols;
      var x := 0;
      ghost var was := lastCells;
      while x < lastCols
        invariant x <= lastCols
        invariant lastCells == was[..base] + rowScratch[..x] + was[base + x..]
      {
        lastCells := lastCells[base + x := rowScratch[x]];
        x := x + 1;
      }
      assert rowScratch[..x] == rowScratch;
    }

    /** The whole screen, leaving the baseline alone. */
    method FullSnapshot() returns (u: GridUpdate)
      requires Valid()
      ensures u == Snapshot(View())
    {
      var all, y := [], 0;
      while y < |terminal.lines|
        invariant y <= |terminal.lines| && all == All(terminal.lines, y)
      {
        all := all + [Changed(y, terminal.lines[y])];
        y := y + 1;
      }
      u := GridCodec.GridUpdate(terminal.cols, |terminal.lines|, terminal.cursor.col, terminal.cursor.row,
                                terminal.cursor.visible, true, all);
    }
  }
}
