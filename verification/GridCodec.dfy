/**
 The binary form of grid updates: colours packed in four bytes, rows as runs of equal
 cells, and the update around them.
*/
module GridCodec {
  import opened Wrappers
  import opened Bytes
  import opened BigEndian
  import opened Streaming

  type U16 = n: int | 0 <= n < 0x1_0000
  type U32 = n: int | 0 <= n < 0x1_0000_0000

  datatype Color = Default | Inverted | Ansi(c: Byte) | Rgb(r: Byte, g: Byte, b: Byte) {
    function Packed(): U32 {
      match this
      case Default => 0
      case Inverted => 0x100_0000
      case Ansi(c) => 2 * 0x100_0000 + c
      case Rgb(r, g, b) => 3 * 0x100_0000 + r * 0x1_0000 + g * 0x100 + b
    }
  }

  function Unpack(v: U32): Color {
    match v / 0x100_0000
    case 0 => Default
    case 1 => Inverted
    case 2 => Ansi(v % 0x100)
    case _ => Rgb(v / 0x1_0000 % 0x100, v / 0x100 % 0x100, v % 0x100)
  }

  lemma Digits(tag: nat, r: Byte, g: Byte, b: Byte)
    ensures var v := tag * 0x100_0000 + r * 0x1_0000 + g * 0x100 + b;
            v / 0x100_0000 == tag && v / 0x1_0000 == tag * 0x100 + r && v / 0x100 == tag * 0x1_0000 + r * 0x100 + g
            && v % 0x100 == b
  {}

  lemma DigitOf(high: nat, low: Byte)
    ensures (high * 0x100 + low) % 0x100 == low
  {}

  lemma UnpackPacked(c: Color)
    ensures Unpack(c.Packed()) == c
  {
    match c
    case Rgb(r, g, b) =>
      Digits(3, r, g, b);
      DigitOf(3, r);
      DigitOf(3 * 0x100 + r, g);
      assert c.Packed() / 0x100_0000 == 3;
    case Ansi(n) => Digits(2, 0, 0, n);
    case _ =>
  }

  lemma Regrouped(v: U32)
    ensures v == v / 0x100_0000 * 0x100_0000 + v / 0x1_0000 % 0x100 * 0x1_0000 + v / 0x100 % 0x100 * 0x100 + v % 0x100
  {
    assert v == v / 0x100 * 0x100 + v % 0x100;
    var w := v / 0x100;
    assert w == w / 0x100 * 0x100 + w % 0x100;
    assert w / 0x100 == v / 0x1_0000;
    var x := v / 0x1_0000;
    assert x == x / 0x100 * 0x100 + x % 0x100 && x / 0x100 == v / 0x100_0000;
  }

  /** A word is some colour's packed form exactly when it has no bits to spare. */
  lemma PackedUnpack(v: U32)
    ensures Unpack(v).Packed() == v <==>
              v == 0 || v == 0x100_0000 || 2 * 0x100_0000 <= v < 2 * 0x100_0000 + 0x100 ||
              3 * 0x100_0000 <= v < 4 * 0x100_0000
  {
    var r, g, b := v / 0x1_0000 % 0x100, v / 0x100 % 0x100, v % 0x100;
    Regrouped(v);
    if v / 0x100_0000 >= 3 {
      assert Unpack(v).Packed() == 3 * 0x100_0000 + r * 0x1_0000 + g * 0x100 + b;
    }
  }

  datatype Cell = Cell(scalar: U32, fg: Color, bg: Color, style: U16)

  datatype Run = Run(repeat: U16, cell: Cell)

  // ---- runs -----------------------------------------------------------------------

  /** How far the first cell repeats, `k` cells already being known to. */
  function RunLength(cells: seq<Cell>, k: nat): (n: nat)
    requires 1 <= k <= |cells| && k <= 0xFFFF
    ensures k <= n <= |cells| && n <= 0xFFFF
    decreases |cells| - k
  {
    if k < |cells| && cells[k] == cells[0] && k < 0xFFFF then RunLength(cells, k + 1) else k
  }

  function Runs(cells: seq<Cell>): seq<Run> {
    if cells == [] then []
    else
      var n := RunLength(cells, 1);
      [Run(n, cells[0])] + Runs(cells[n..])
  }

  function Repeat(cell: Cell, n: nat): (cells: seq<Cell>)
    ensures |cells| == n && forall i | 0 <= i < n :: cells[i] == cell
  {
    seq(n, _ => cell)
  }

  function Expand(runs: seq<Run>): seq<Cell> {
    if runs == [] then [] else Repeat(runs[0].cell, runs[0].repeat) + Expand(runs[1..])
  }

  lemma {:induction false} RunIsUniform(cells: seq<Cell>, k: nat)
    requires 1 <= k <= |cells| && k <= 0xFFFF
    requires forall i | 0 <= i < k :: cells[i] == cells[0]
    ensures var n := RunLength(cells, k);
            (forall i | 0 <= i < n :: cells[i] == cells[0]) && (n < |cells| && n < 0xFFFF ==> cells[n] != cells[0])
    decreases |cells| - k
  {
    if k < |cells| && cells[k] == cells[0] && k < 0xFFFF {
      RunIsUniform(cells, k + 1);
    }
  }

  lemma UniformPrefix(cells: seq<Cell>, n: nat)
    requires 1 <= n <= |cells| && forall i | 0 <= i < n :: cells[i] == cells[0]
    ensures Repeat(cells[0], n) + cells[n..] == cells
  {}

  lemma {:induction false} ExpandRuns(cells: seq<Cell>)
    ensures Expand(Runs(cells)) == cells
  {
    if cells != [] {
      var n := RunLength(cells, 1);
      RunIsUniform(cells, 1);
      ExpandRuns(cells[n..]);
      UniformPrefix(cells, n);
    }
  }

  /** A run ends only where the row changes, or at the largest count. */
  lemma {:induction false} RunsAreMaximal(cells: seq<Cell>, i: nat)
    requires i < |Runs(cells)|
    ensures Runs(cells)[i].repeat >= 1
    ensures i + 1 < |Runs(cells)| ==>
              Runs(cells)[i].repeat == 0xFFFF || Runs(cells)[i].cell != Runs(cells)[i + 1].cell
  {
    var n := RunLength(cells, 1);
    RunIsUniform(cells, 1);
    if i > 0 {
      RunsAreMaximal(cells[n..], i - 1);
    }
  }

  // ---- fields ---------------------------------------------------------------------

  /** What a read leaves: too few bytes, or a value and the bytes after it. */
  datatype Taken<+T> = Short | Taken(value: T, rest: seq<Byte>)

  function Field(bs: seq<Byte>, width: nat): Taken<nat> {
    if |bs| < width then Short else Taken(Get(bs[..width]), bs[width..])
  }

  lemma FieldPut(v: nat, width: nat, rest: seq<Byte>)
    requires v < Pow256(width)
    ensures Field(Put(v, width) + rest, width) == Taken(v, rest)
  {
    GetPut(v, width);
    assert (Put(v, width) + rest)[..width] == Put(v, width);
  }

  lemma FieldBound(bs: seq<Byte>, width: nat)
    ensures Field(bs, width).Taken? ==> Field(bs, width).value < Pow256(width)
  {
    if |bs| >= width {
      GetBound(bs[..width]);
    }
  }

  function Word(bs: seq<Byte>): (t: Taken<U16>)
  {
    FieldBound(bs, 2);
    Widths();
    match Field(bs, 2)
    case Short => Short
    case Taken(v, rest) => Taken(v, rest)
  }

  function Long(bs: seq<Byte>): (t: Taken<U32>)
  {
    FieldBound(bs, 4);
    Widths();
    match Field(bs, 4)
    case Short => Short
    case Taken(v, rest) => Taken(v, rest)
  }

  lemma WordPut(v: U16, rest: seq<Byte>)
    ensures Word(Put(v, 2) + rest) == Taken(v, rest)
  {
    Widths();
    FieldPut(v, 2, rest);
  }

  lemma LongPut(v: U32, rest: seq<Byte>)
    ensures Long(Put(v, 4) + rest) == Taken(v, rest)
  {
    Widths();
    FieldPut(v, 4, rest);
  }

  // ---- rows -----------------------------------------------------------------------

  function PutCell(c: Cell): seq<Byte> {
    Put(c.scalar, 4) + Put(c.fg.Packed(), 4) + Put(c.bg.Packed(), 4) + Put(c.style, 2)
  }

  function PutRun(r: Run): seq<Byte> {
    Put(r.repeat, 2) + PutCell(r.cell)
  }

  function PutRow(cells: seq<Cell>): seq<Byte>
    requires |Runs(cells)| <= 0xFFFF
  {
    Put(|Runs(cells)|, 2) + Flatten(PutRun, Runs(cells))
  }

  function GetCell(bs: seq<Byte>): Taken<Cell> {
    match Long(bs)
    case Short => Short
    case Taken(scalar, r1) =>
      match Long(r1)
      case Short => Short
      case Taken(fg, r2) =>
        match Long(r2)
        case Short => Short
        case Taken(bg, r3) =>
          match Word(r3)
          case Short => Short
          case Taken(style, r4) => Taken(Cell(scalar, Unpack(fg), Unpack(bg), style), r4)
  }

  function GetRun(bs: seq<Byte>): Taken<Run> {
    match Word(bs)
    case Short => Short
    case Taken(repeat, rest) =>
      match GetCell(rest)
      case Short => Short
      case Taken(cell, after) => Taken(Run(repeat, cell), after)
  }

  function GetRuns(bs: seq<Byte>, count: nat): Taken<seq<Cell>> {
    if count == 0 then Taken([], bs)
    else
      match GetRun(bs)
      case Short => Short
      case Taken(run, rest) =>
        match GetRuns(rest, count - 1)
        case Short => Short
        case Taken(cells, after) => Taken(Repeat(run.cell, run.repeat) + cells, after)
  }

  function GetRow(bs: seq<Byte>): Taken<seq<Cell>> {
    match Word(bs)
    case Short => Short
    case Taken(count, rest) => GetRuns(rest, count)
  }

  lemma GetCellPut(c: Cell, rest: seq<Byte>)
    ensures GetCell(PutCell(c) + rest) == Taken(c, rest)
  {
    var style := Put(c.style, 2) + rest;
    var bg := Put(c.bg.Packed(), 4) + style;
    var fg := Put(c.fg.Packed(), 4) + bg;
    assert PutCell(c) + rest == Put(c.scalar, 4) + fg;
    LongPut(c.scalar, fg);
    LongPut(c.fg.Packed(), bg);
    LongPut(c.bg.Packed(), style);
    WordPut(c.style, rest);
    UnpackPacked(c.fg);
    UnpackPacked(c.bg);
  }

  lemma GetRunPut(r: Run, rest: seq<Byte>)
    ensures GetRun(PutRun(r) + rest) == Taken(r, rest)
  {
    assert PutRun(r) + rest == Put(r.repeat, 2) + (PutCell(r.cell) + rest);
    WordPut(r.repeat, PutCell(r.cell) + rest);
    GetCellPut(r.cell, rest);
  }

  lemma {:induction false} GetRunsPut(runs: seq<Run>, rest: seq<Byte>)
    ensures GetRuns(Flatten(PutRun, runs) + rest, |runs|) == Taken(Expand(runs), rest)
  {
    if runs == [] {
      assert [] + rest == rest;
    } else {
      var tail := Flatten(PutRun, runs[1..]) + rest;
      Assoc(PutRun(runs[0]), Flatten(PutRun, runs[1..]), rest);
      GetRunPut(runs[0], tail);
      GetRunsPut(runs[1..], rest);
    }
  }

  /** A row read back is the row written, whatever follows it. */
  lemma GetRowPut(cells: seq<Cell>, rest: seq<Byte>)
    requires |Runs(cells)| <= 0xFFFF
    ensures GetRow(PutRow(cells) + rest) == Taken(cells, rest)
  {
    var runs := Runs(cells);
    assert PutRow(cells) + rest == Put(|runs|, 2) + (Flatten(PutRun, runs) + rest);
    WordPut(|runs|, Flatten(PutRun, runs) + rest);
    GetRunsPut(runs, rest);
    ExpandRuns(cells);
  }

  // ---- updates --------------------------------------------------------------------

  datatype Changed = Changed(y: int, cells: seq<Cell>)

  datatype GridUpdate = GridUpdate(cols: int, rows: int, cursorCol: int, cursorRow: int, cursorVisible: bool,
                                   isFullSnapshot: bool, changedRows: seq<Changed>)

  function Clamp(n: int): U16 {
    if n < 0 then 0 else if n > 0xFFFF then 0xFFFF else n
  }

  predicate FitsWord(n: int) { 0 <= n <= 0xFFFF }

  predicate RowEncodable(row: Changed) {
    FitsWord(row.y) && |Runs(row.cells)| <= 0xFFFF
  }

  predicate RowsEncodable(rows: seq<Changed>) {
    rows == [] || (RowEncodable(rows[0]) && RowsEncodable(rows[1..]))
  }

  /** Beyond these the encoder traps. */
  predicate Encodable(u: GridUpdate) {
    FitsWord(u.cols) && FitsWord(u.rows) && FitsWord(|u.changedRows|) &&
    RowsEncodable(u.changedRows)
  }

  function Flags(u: GridUpdate): Byte {
    (if u.cursorVisible then 1 else 0) + if u.isFullSnapshot then 2 else 0
  }

  function PutRows(rows: seq<Changed>): seq<Byte>
    requires RowsEncodable(rows)
  {
    if rows == [] then []
    else Put(rows[0].y, 2) + PutRow(rows[0].cells) + PutRows(rows[1..])
  }

  function PutHeader(u: GridUpdate): seq<Byte>
    requires Encodable(u)
  {
    Put(u.cols, 2) + Put(u.rows, 2) + Put(Clamp(u.cursorCol), 2) + Put(Clamp(u.cursorRow), 2) + [Flags(u)]
      + Put(|u.changedRows|, 2)
  }

  function Encoded(u: GridUpdate): seq<Byte>
    requires Encodable(u)
  {
    PutHeader(u) + PutRows(u.changedRows)
  }

  function GetRows(bs: seq<Byte>, count: nat): Taken<seq<Changed>>
    decreases count
  {
    if count == 0 then Taken([], bs)
    else
      match Word(bs)
      case Short => Short
      case Taken(y, r1) =>
        match GetRow(r1)
        case Short => Short
        case Taken(cells, r2) =>
          match GetRows(r2, count - 1)
          case Short => Short
          case Taken(rows, after) => Taken([Changed(y, cells)] + rows, after)
  }

  datatype Header = Header(cols: U16, rows: U16, cursorCol: U16, cursorRow: U16, flags: Byte, rowCount: U16)

  function GetHeader(bs: seq<Byte>): Taken<Header> {
    if |bs| < 11 then Short
    else
      var w := (i: nat) requires i + 2 <= |bs| => Word(bs[i..]).value;
      Taken(Header(w(0), w(2), w(4), w(6), bs[8], w(9)), bs[11..])
  }

  function Assemble(h: Header, rows: seq<Changed>): GridUpdate {
    GridUpdate(h.cols, h.rows, h.cursorCol, h.cursorRow, h.flags % 2 == 1, h.flags / 2 % 2 == 1, rows)
  }

  function HeaderOf(u: GridUpdate): Header
    requires Encodable(u)
  {
    Header(u.cols, u.rows, Clamp(u.cursorCol), Clamp(u.cursorRow), Flags(u), |u.changedRows|)
  }

  /** What the decoder makes of a payload; bytes after the last row are ignored. */
  function Decoded(bs: seq<Byte>): Option<GridUpdate> {
    match GetHeader(bs)
    case Short => None
    case Taken(h, rest) =>
      match GetRows(rest, h.rowCount)
      case Short => None
      case Taken(rows, _) =>
        Some(Assemble(h, rows))
  }

  lemma {:induction false} GetRowsPut(rows: seq<Changed>, rest: seq<Byte>)
    requires RowsEncodable(rows)
    ensures GetRows(PutRows(rows) + rest, |rows|) == Taken(rows, rest)
  {
    if rows == [] {
      assert [] + rest == rest;
    } else {
      var tail := PutRows(rows[1..]) + rest;
      Assoc(Put(rows[0].y, 2) + PutRow(rows[0].cells), PutRows(rows[1..]), rest);
      Assoc(Put(rows[0].y, 2), PutRow(rows[0].cells), tail);
      WordPut(rows[0].y, PutRow(rows[0].cells) + tail);
      GetRowPut(rows[0].cells, tail);
      GetRowsPut(rows[1..], rest);
      assert [Changed(rows[0].y, rows[0].cells)] + rows[1..] == rows;
    }
  }

  lemma WordAt(bs: seq<Byte>, i: nat, v: U16)
    requires i + 2 <= |bs| && bs[i..i + 2] == Put(v, 2)
    ensures Word(bs[i..]).Taken? && Word(bs[i..]).value == v
  {
    assert bs[i..] == Put(v, 2) + bs[i + 2..];
    WordPut(v, bs[i + 2..]);
  }

  lemma GetHeaderPut(u: GridUpdate, rest: seq<Byte>)
    requires Encodable(u)
    ensures GetHeader(PutHeader(u) + rest) == Taken(HeaderOf(u), rest)
  {
    var bs := PutHeader(u) + rest;
    assert bs[0..2] == Put(u.cols, 2) && bs[2..4] == Put(u.rows, 2);
    assert bs[4..6] == Put(Clamp(u.cursorCol), 2) && bs[6..8] == Put(Clamp(u.cursorRow), 2);
    assert bs[8] == Flags(u) && bs[9..11] == Put(|u.changedRows|, 2) && bs[11..] == rest;
    WordAt(bs, 0, u.cols);
    WordAt(bs, 2, u.rows);
    WordAt(bs, 4, Clamp(u.cursorCol));
    WordAt(bs, 6, Clamp(u.cursorRow));
    WordAt(bs, 9, |u.changedRows|);
  }

  lemma AssembleHeaderOf(u: GridUpdate)
    requires Encodable(u)
    ensures Assemble(HeaderOf(u), u.changedRows) == u.(cursorCol := Clamp(u.cursorCol), cursorRow := Clamp(u.cursorRow))
  {}

  /** The codec loses nothing but a cursor outside the 16-bit range. */
  lemma DecodedEncoded(u: GridUpdate, extra: seq<Byte>)
    requires Encodable(u)
    ensures Decoded(Encoded(u) + extra) == Some(u.(cursorCol := Clamp(u.cursorCol), cursorRow := Clamp(u.cursorRow)))
  {
    Assoc(PutHeader(u), PutRows(u.changedRows), extra);
    AssembleHeaderOf(u);
    GetHeaderPut(u, PutRows(u.changedRows) + extra);
    GetRowsPut(u.changedRows, extra);
  }
}
