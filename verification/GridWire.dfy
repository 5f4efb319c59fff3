/** The loops that write and read grid updates, proved against the codec. */
module GridWire {
  import opened Wrappers
  import opened Bytes
  import opened BigEndian
  import opened Streaming
  import opened GridCodec
  import opened GridLayout

  lemma {:induction false} MoreCells(cells: seq<Cell>, i: nat, k: nat)
    requires i + k <= |cells| && 1 <= k <= 0xFFFF
    requires RunLength(cells[i..], 1) == RunLength(cells[i..], k)
    ensures i + k < |cells| && cells[i + k] == cells[i] && k < 0xFFFF ==>
              RunLength(cells[i..], 1) == RunLength(cells[i..], k + 1)
    ensures !(i + k < |cells| && cells[i + k] == cells[i] && k < 0xFFFF) ==> RunLength(cells[i..], 1) == k
  {
    if i + k < |cells| {
      assert cells[i..][k] == cells[i + k];
    }
    assert cells[i..][0] == cells[i];
  }

  /** The end of the run that starts at `i`. */
  method RunEnd(cells: seq<Cell>, i: nat) returns (repeat: U16, j: nat)
    requires i < |cells|
    ensures j == i + repeat <= |cells| && repeat == RunLength(cells[i..], 1)
  {
    repeat, j := 1, i + 1;
    MoreCells(cells, i, repeat);
    while j < |cells| && cells[j] == cells[i] && repeat < 0xFFFF
      invariant j == i + repeat <= |cells| && repeat >= 1
      invariant RunLength(cells[i..], 1) == RunLength(cells[i..], repeat)
      decreases |cells| - j
    {
      MoreCells(cells, i, repeat);
      repeat, j := repeat + 1, j + 1;
    }
    MoreCells(cells, i, repeat);
  }

  lemma RunsFrom(cells: seq<Cell>, i: nat)
    requires i < |cells|
    ensures var n := RunLength(cells[i..], 1);
            i + n <= |cells| && Runs(cells[i..]) == [Run(n, cells[i])] + Runs(cells[i + n..])
  {
    var n := RunLength(cells[i..], 1);
    assert cells[i..][n..] == cells[i + n..];
  }

  lemma FlattenSnoc(runs: seq<Run>, r: Run)
    ensures Flatten(PutRun, runs + [r]) == Flatten(PutRun, runs) + PutRun(r)
  {
    FlattenConcat(PutRun, runs, [r]);
    assert [r][1..] == [];
    assert PutRun(r) + [] == PutRun(r);
  }

  /** `done` and the cells from `i` on make up the row; `bytes` spells `done`. */
  ghost predicate Spelled(cells: seq<Cell>, i: nat, done: seq<Run>, bytes: seq<Byte>) {
    i <= |cells| && done + Runs(cells[i..]) == Runs(cells) && bytes == Flatten(PutRun, done)
  }

  lemma SpelledMore(cells: seq<Cell>, i: nat, done: seq<Run>, bytes: seq<Byte>)
    requires i < |cells| && Spelled(cells, i, done, bytes)
    ensures var n := RunLength(cells[i..], 1); var r := Run(n, cells[i]);
            Spelled(cells, i + n, done + [r], bytes + PutRun(r))
  {
    var n := RunLength(cells[i..], 1);
    var r := Run(n, cells[i]);
    RunsFrom(cells, i);
    FlattenSnoc(done, r);
    Assoc(done, [r], Runs(cells[i + n..]));
  }

  lemma SpelledAll(cells: seq<Cell>, done: seq<Run>, bytes: seq<Byte>)
    requires Spelled(cells, |cells|, done, bytes)
    ensures done == Runs(cells)
  {
    assert cells[|cells|..] == [];
    assert done + [] == done;
  }

  method AppendRow(cells: seq<Cell>, d: seq<Byte>) returns (out: seq<Byte>)
    requires |Runs(cells)| <= 0xFFFF
    ensures out == d + PutRow(cells)
  {
    var runs: seq<Byte>, runCount: nat, i: nat := [], 0, 0;
    ghost var done: seq<Run> := [];
    assert Spelled(cells, 0, done, runs) by {
      assert cells[0..] == cells;
      assert [] + Runs(cells) == Runs(cells);
    }
    while i < |cells|
      invariant Spelled(cells, i, done, runs) && runCount == |done|
      decreases |cells| - i
    {
      var repeat, j := RunEnd(cells, i);
      SpelledMore(cells, i, done, runs);
      done := done + [Run(repeat, cells[i])];
      runs := runs + PutRun(Run(repeat, cells[i]));
      runCount := runCount + 1;
      i := j;
    }
    SpelledAll(cells, done, runs);
    Assoc(d, Put(runCount, 2), runs);
    out := d + Put(runCount, 2) + runs;
  }

  method Encode(u: GridUpdate) returns (d: seq<Byte>)
    requires Encodable(u)
    ensures d == Encoded(u) && Laid(d, u)
  {
    EncodedIsLaid(u);
    d := Put(u.cols, 2) + Put(u.rows, 2) + Put(Clamp(u.cursorCol), 2) + Put(Clamp(u.cursorRow), 2);
    d := d + [Flags(u)];
    d := d + Put(|u.changedRows|, 2);
    d := AppendRows(u.changedRows, d);
  }

  method AppendRows(rows: seq<Changed>, start: seq<Byte>) returns (d: seq<Byte>)
    requires RowsEncodable(rows)
    ensures d == start + PutRows(rows)
  {
    d := start;
    var i := 0;
    ghost var left := rows;
    while i < |rows|
      invariant i <= |rows| && left == rows[i..] && RowsEncodable(left)
      invariant d + PutRows(left) == start + PutRows(rows)
    {
      assert left[0] == rows[i] && left[1..] == rows[i + 1..];
      Assoc(d + Put(rows[i].y, 2), PutRow(rows[i].cells), PutRows(left[1..]));
      Assoc(d, Put(rows[i].y, 2), PutRow(rows[i].cells));
      Assoc(d, Put(rows[i].y, 2) + PutRow(rows[i].cells), PutRows(left[1..]));
      d := d + Put(rows[i].y, 2);
      d := AppendRow(rows[i].cells, d);
      i, left := i + 1, left[1..];
    }
    assert d + [] == d;
  }

  // ---- reading --------------------------------------------------------------------

  lemma GetFold(bs: seq<Byte>, at: nat, k: nat)
    requires at + k < |bs|
    ensures Get(bs[at..at + (k + 1)]) == 256 * Get(bs[at..at + k]) + bs[at + k]
  {
    assert bs[at..at + (k + 1)][..k] == bs[at..at + k];
  }

  /** A big-endian field at `p`; `None` when the payload ends before it does. */
  method ReadField(payload: seq<Byte>, p: nat, width: nat) returns (v: Option<nat>, q: nat)
    requires p <= |payload|
    ensures match Field(payload[p..], width)
            case Short => v.None?
            case Taken(n, rest) => v == Some(n) && q == p + width <= |payload| && rest == payload[q..]
  {
    if p + width > |payload| {
      return None, p;
    }
    var value: nat, i: nat := 0, 0;
    while i < width
      invariant i <= width && value == Get(payload[p..p + i])
    {
      GetFold(payload, p, i);
      value := value * 256 + payload[p + i];
      i := i + 1;
    }
    SliceOfSlice(payload, p, |payload|, 0, width);
    assert payload[p..|payload|] == payload[p..];
    assert payload[p..][width..] == payload[p + width..];
    return Some(value), p + width;
  }

  method ReadWord(payload: seq<Byte>, p: nat) returns (v: Option<U16>, q: nat)
    requires p <= |payload|
    ensures match Word(payload[p..])
            case Short => v.None?
            case Taken(n, rest) => v == Some(n) && q == p + 2 <= |payload| && rest == payload[q..]
  {
    var field;
    field, q := ReadField(payload, p, 2);
    FieldBound(payload[p..], 2);
    Widths();
    v := if field.Some? then Some(field.value) else None;
  }

  method ReadLong(payload: seq<Byte>, p: nat) returns (v: Option<U32>, q: nat)
    requires p <= |payload|
    ensures match Long(payload[p..])
            case Short => v.None?
            case Taken(n, rest) => v == Some(n) && q == p + 4 <= |payload| && rest == payload[q..]
  {
    var field;
    field, q := ReadField(payload, p, 4);
    FieldBound(payload[p..], 4);
    Widths();
    v := if field.Some? then Some(field.value) else None;
  }

  method ReadCell(payload: seq<Byte>, start: nat) returns (cell: Option<Cell>, p: nat)
    requires start <= |payload|
    ensures match GetCell(payload[start..])
            case Short => cell.None?
            case Taken(c, rest) => cell == Some(c) && p <= |payload| && rest == payload[p..]
  {
    var scalar, fg, bg, style;
    p := start;
    cell := None;
    scalar, p := ReadLong(payload, p);
    if scalar.None? { return; }
    fg, p := ReadLong(payload, p);
    if fg.None? { return; }
    bg, p := ReadLong(payload, p);
    if bg.None? { return; }
    style, p := ReadWord(payload, p);
    if style.None? { return; }
    cell := Some(Cell(scalar.value, Unpack(fg.value), Unpack(bg.value), style.value));
  }

  /** What is still to be read of a row, given what was read of it. */
  function Finish(cells: seq<Cell>, more: Taken<seq<Cell>>): Taken<seq<Cell>> {
    match more
    case Short => Short
    case Taken(tail, rest) => Taken(cells + tail, rest)
  }

  lemma FinishRun(cells: seq<Cell>, bs: seq<Byte>, count: nat)
    requires count > 0
    ensures Finish(cells, GetRuns(bs, count)) ==
              match GetRun(bs)
              case Short => Short
              case Taken(run, rest) => Finish(cells + Repeat(run.cell, run.repeat), GetRuns(rest, count - 1))
  {
    match GetRun(bs) {
      case Short =>
      case Taken(run, rest) =>
        match GetRuns(rest, count - 1) {
          case Short =>
          case Taken(tail, after) =>
            Assoc(cells, Repeat(run.cell, run.repeat), tail);
        }
    }
  }

  method ReadRun(payload: seq<Byte>, start: nat) returns (run: Option<Run>, p: nat)
    requires start <= |payload|
    ensures match GetRun(payload[start..])
            case Short => run.None?
            case Taken(r, rest) => run == Some(r) && p <= |payload| && rest == payload[p..]
  {
    var repeat, cell;
    repeat, p := ReadWord(payload, start);
    if repeat.None? {
      return None, p;
    }
    cell, p := ReadCell(payload, p);
    if cell.None? {
      return None, p;
    }
    return Some(Run(repeat.value, cell.value)), p;
  }

  method ReadRow(payload: seq<Byte>, start: nat) returns (row: Option<seq<Cell>>, p: nat)
    requires start <= |payload|
    ensures match GetRow(payload[start..])
            case Short => row.None?
            case Taken(cells, rest) => row == Some(cells) && p <= |payload| && rest == payload[p..]
  {
    var runCount;
    runCount, p := ReadWord(payload, start);
    if runCount.None? {
      return None, p;
    }
    row, p := ReadRuns(payload, p, runCount.value);
  }

  /** `all` is what `cells` and `count` more runs at the front of `bs` come to. */
  ghost predicate Reading(all: Taken<seq<Cell>>, cells: seq<Cell>, bs: seq<Byte>, count: nat) {
    all == Finish(cells, GetRuns(bs, count))
  }

  lemma ReadingStep(all: Taken<seq<Cell>>, cells: seq<Cell>, bs: seq<Byte>, count: nat)
    requires count > 0 && Reading(all, cells, bs, count)
    ensures match GetRun(bs)
            case Short => all == Short
            case Taken(run, rest) => Reading(all, cells + Repeat(run.cell, run.repeat), rest, count - 1)
  {
    FinishRun(cells, bs, count);
  }

  lemma ReadingDone(all: Taken<seq<Cell>>, cells: seq<Cell>, bs: seq<Byte>)
    requires Reading(all, cells, bs, 0)
    ensures all == Taken(cells, bs)
  {
    FinishNone(cells, bs);
  }

  method ReadRuns(payload: seq<Byte>, start: nat, runCount: nat) returns (row: Option<seq<Cell>>, p: nat)
    requires start <= |payload|
    ensures match GetRuns(payload[start..], runCount)
            case Short => row.None?
            case Taken(cells, rest) => row == Some(cells) && p <= |payload| && rest == payload[p..]
  {
    ghost var all := GetRuns(payload[start..], runCount);
    FinishEmpty(all);
    row, p := ReadMoreRuns(payload, start, runCount, all);
  }

  method ReadMoreRuns(payload: seq<Byte>, start: nat, runCount: nat, ghost all: Taken<seq<Cell>>)
    returns (row: Option<seq<Cell>>, p: nat)
    requires start <= |payload| && Reading(all, [], payload[start..], runCount)
    ensures match all
            case Short => row.None?
            case Taken(cells, rest) => row == Some(cells) && p <= |payload| && rest == payload[p..]
  {
    var cells: seq<Cell>, left: nat := [], runCount;
    p := start;
    while left > 0
      invariant p <= |payload| && Reading(all, cells, payload[p..], left)
    {
      ReadingStep(all, cells, payload[p..], left);
      var run;
      run, p := ReadRun(payload, p);
      if run.None? {
        return None, p;
      }
      cells := AppendCopies(cells, run.value.cell, run.value.repeat);
      left := left - 1;
    }
    ReadingDone(all, cells, payload[p..]);
    return Some(cells), p;
  }

  lemma FinishEmpty(all: Taken<seq<Cell>>)
    ensures Finish([], all) == all
  {
    if all.Taken? {
      assert [] + all.value == all.value;
    }
  }

  lemma FinishNone(cells: seq<Cell>, bs: seq<Byte>)
    ensures Finish(cells, GetRuns(bs, 0)) == Taken(cells, bs)
  {
    assert cells + [] == cells;
  }

  method AppendCopies(cells: seq<Cell>, cell: Cell, count: nat) returns (out: seq<Cell>)
    ensures out == cells + Repeat(cell, count)
  {
    out := cells;
    for i := 0 to count
      invariant out == cells + Repeat(cell, i)
    {
      assert Repeat(cell, i) + [cell] == Repeat(cell, i + 1);
      out := out + [cell];
    }
  }

  function FinishRows(rows: seq<Changed>, more: Taken<seq<Changed>>): Taken<seq<Changed>> {
    match more
    case Short => Short
    case Taken(tail, rest) => Taken(rows + tail, rest)
  }

  lemma FinishRowsEmpty(all: Taken<seq<Changed>>)
    ensures FinishRows([], all) == all
  {
    if all.Taken? {
      assert [] + all.value == all.value;
    }
  }

  lemma FinishRowsNone(rows: seq<Changed>, bs: seq<Byte>)
    ensures FinishRows(rows, GetRows(bs, 0)) == Taken(rows, bs)
  {
    assert rows + [] == rows;
  }

  lemma FinishRowsMore(rows: seq<Changed>, bs: seq<Byte>, count: nat)
    requires count > 0
    ensures FinishRows(rows, GetRows(bs, count)) ==
              match GetChanged(bs)
              case Short => Short
              case Taken(row, rest) => FinishRows(rows + [row], GetRows(rest, count - 1))
  {
    match GetChanged(bs) {
      case Short =>
      case Taken(row, rest) =>
        match GetRows(rest, count - 1) {
          case Short =>
          case Taken(tail, after) =>
            Assoc(rows, [row], tail);
        }
    }
  }

  function GetChanged(bs: seq<Byte>): Taken<Changed> {
    match Word(bs)
    case Short => Short
    case Taken(y, r1) =>
      match GetRow(r1)
      case Short => Short
      case Taken(cells, r2) => Taken(Changed(y, cells), r2)
  }

  method ReadChanged(payload: seq<Byte>, start: nat) returns (row: Option<Changed>, p: nat)
    requires start <= |payload|
    ensures match GetChanged(payload[start..])
            case Short => row.None?
            case Taken(r, rest) => row == Some(r) && p <= |payload| && rest == payload[p..]
  {
    var y, cells;
    y, p := ReadWord(payload, start);
    if y.None? {
      return None, p;
    }
    cells, p := ReadRow(payload, p);
    if cells.None? {
      return None, p;
    }
    return Some(Changed(y.value, cells.value)), p;
  }

  ghost predicate ReadingRows(all: Taken<seq<Changed>>, rows: seq<Changed>, bs: seq<Byte>, count: nat) {
    all == FinishRows(rows, GetRows(bs, count))
  }

  lemma ReadingRowsStep(all: Taken<seq<Changed>>, rows: seq<Changed>, bs: seq<Byte>, count: nat)
    requires count > 0 && ReadingRows(all, rows, bs, count)
    ensures match GetChanged(bs)
            case Short => all == Short
            case Taken(row, rest) => ReadingRows(all, rows + [row], rest, count - 1)
  {
    FinishRowsMore(rows, bs, count);
  }

  lemma ReadingRowsDone(all: Taken<seq<Changed>>, rows: seq<Changed>, bs: seq<Byte>)
    requires ReadingRows(all, rows, bs, 0)
    ensures all == Taken(rows, bs)
  {
    FinishRowsNone(rows, bs);
  }

  method ReadRows(payload: seq<Byte>, start: nat, rowCount: nat) returns (rows: Option<seq<Changed>>)
    requires start <= |payload|
    ensures match GetRows(payload[start..], rowCount)
            case Short => rows.None?
            case Taken(rs, _) => rows == Some(rs)
  {
    ghost var all := GetRows(payload[start..], rowCount);
    FinishRowsEmpty(all);
    rows := ReadMoreRows(payload, start, rowCount, all);
  }

  method ReadMoreRows(payload: seq<Byte>, start: nat, rowCount: nat, ghost all: Taken<seq<Changed>>)
    returns (rows: Option<seq<Changed>>)
    requires start <= |payload| && ReadingRows(all, [], payload[start..], rowCount)
    ensures match all
            case Short => rows.None?
            case Taken(rs, _) => rows == Some(rs)
  {
    var list: seq<Changed>, left: nat, p: nat := [], rowCount, start;
    while left > 0
      invariant p <= |payload| && ReadingRows(all, list, payload[p..], left)
    {
      ReadingRowsStep(all, list, payload[p..], left);
      var row;
      row, p := ReadChanged(payload, p);
      if row.None? {
        return None;
      }
      list := list + [row.value];
      left := left - 1;
    }
    ReadingRowsDone(all, list, payload[p..]);
    return Some(list);
  }

  /** Decoding never reads past the payload, whatever it holds. */
  method Decode(payload: seq<Byte>) returns (u: Option<GridUpdate>)
    ensures u == Decoded(payload)
  {
    var h := ReadHeader(payload);
    if h.None? {
      return None;
    }
    var rows := ReadRows(payload, 11, h.value.rowCount);
    if rows.None? {
      return None;
    }
    return Some(Assemble(h.value, rows.value));
  }

  method ReadHeader(payload: seq<Byte>) returns (h: Option<Header>)
    ensures match GetHeader(payload)
            case Short => h.None?
            case Taken(header, rest) => h == Some(header) && |payload| >= 11 && rest == payload[11..]
  {
    h := None;
    var c, r, cc, cr, n, p;
    assert payload[0..] == payload;
    c, p := ReadWord(payload, 0);
    if c.None? { return; }
    r, p := ReadWord(payload, p);
    if r.None? { return; }
    cc, p := ReadWord(payload, p);
    if cc.None? { return; }
    cr, p := ReadWord(payload, p);
    if cr.None? || p >= |payload| { return; }
    var flags := payload[p];
    n, p := ReadWord(payload, p + 1);
    if n.None? { return; }
    h := Some(Header(c.value, r.value, cc.value, cr.value, flags, n.value));
  }
}
