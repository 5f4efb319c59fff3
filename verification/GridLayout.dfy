/**
 The binary form of an update, byte by byte, as a decoder in another language would have to
 read it: every byte of the header, of each row, of each run and of a frame's header.
*/
module GridLayout {
  import opened Bytes
  import opened BigEndian
  import opened Streaming
  import opened GridCodec

  predicate Short(d: seq<Byte>, at: nat, v: int) {
    at + 2 <= |d| && d[at] == v / 0x100 && d[at + 1] == v % 0x100
  }

  predicate Wide(d: seq<Byte>, at: nat, v: int) {
    at + 4 <= |d| && d[at] == v / 0x100_0000 && d[at + 1] == v / 0x1_0000 % 0x100 &&
    d[at + 2] == v / 0x100 % 0x100 && d[at + 3] == v % 0x100
  }

  /** A colour's four bytes: a tag, and what the tag needs, right-aligned. */
  predicate ColorAt(d: seq<Byte>, at: nat, c: Color) {
    at + 4 <= |d| &&
    match c
    case Default => d[at] == 0 && d[at + 1] == 0 && d[at + 2] == 0 && d[at + 3] == 0
    case Inverted => d[at] == 1 && d[at + 1] == 0 && d[at + 2] == 0 && d[at + 3] == 0
    case Ansi(n) => d[at] == 2 && d[at + 1] == 0 && d[at + 2] == 0 && d[at + 3] == n
    case Rgb(r, g, b) => d[at] == 3 && d[at + 1] == r && d[at + 2] == g && d[at + 3] == b
  }

  /** The sixteen bytes of a run: how often, the scalar, foreground, background, style. */
  predicate RunAt(d: seq<Byte>, at: nat, run: Run) {
    Short(d, at, run.repeat) && Wide(d, at + 2, run.cell.scalar) && ColorAt(d, at + 6, run.cell.fg) &&
    ColorAt(d, at + 10, run.cell.bg) && Short(d, at + 14, run.cell.style)
  }

  predicate RunsAt(d: seq<Byte>, at: nat, runs: seq<Run>)
    decreases |runs|
  {
    runs == [] || (RunAt(d, at, runs[0]) && RunsAt(d, at + 16, runs[1..]))
  }

  /** A row: its number, how many runs, the runs. */
  predicate RowAt(d: seq<Byte>, at: nat, row: Changed) {
    Short(d, at, row.y) && Short(d, at + 2, |Runs(row.cells)|) && RunsAt(d, at + 4, Runs(row.cells))
  }

  function RowSize(row: Changed): nat { 4 + 16 * |Runs(row.cells)| }

  /** The rows follow one another from `at` to the end. */
  predicate RowsAt(d: seq<Byte>, at: nat, rows: seq<Changed>)
    decreases |rows|
  {
    if rows == [] then at == |d| else RowAt(d, at, rows[0]) && RowsAt(d, at + RowSize(rows[0]), rows[1..])
  }

  function InRange(n: int): int { if n < 0 then 0 else if n > 65535 then 65535 else n }

  /** Columns, rows, cursor column and row, flags, how many rows changed; then those rows. */
  predicate Laid(d: seq<Byte>, u: GridUpdate) {
    && Short(d, 0, u.cols) && Short(d, 2, u.rows)
    && Short(d, 4, InRange(u.cursorCol)) && Short(d, 6, InRange(u.cursorRow))
    && |d| >= 11 && d[8] < 4 && (d[8] % 2 == 1 <==> u.cursorVisible) && (d[8] / 2 == 1 <==> u.isFullSnapshot)
    && Short(d, 9, |u.changedRows|)
    && RowsAt(d, 11, u.changedRows)
  }

  // ---- the encoder's bytes are laid out so ----------------------------------------

  lemma ShortIn(pre: seq<Byte>, v: nat, post: seq<Byte>)
    requires v < 0x1_0000
    ensures Short(pre + (Put(v, 2) + post), |pre|, v)
  {
    PutTwo(v);
  }

  lemma WideIn(pre: seq<Byte>, v: nat, post: seq<Byte>)
    requires v < 0x1_0000_0000
    ensures Wide(pre + (Put(v, 4) + post), |pre|, v)
  {
    PutFour(v);
  }

  lemma ColorIn(pre: seq<Byte>, c: Color, post: seq<Byte>)
    ensures ColorAt(pre + (Put(c.Packed(), 4) + post), |pre|, c)
  {
    PutFour(c.Packed());
    PackedDigits(c);
  }

  lemma PackedDigits(c: Color)
    ensures ColorAt(Digits4(c.Packed()), 0, c)
  {
    match c
    case Rgb(r, g, b) => FourDigits(3, r, g, b);
    case Ansi(n) => FourDigits(2, 0, 0, n);
    case _ =>
  }

  lemma FourDigits(a: Byte, b: Byte, c: Byte, d: Byte)
    requires a < 4
    ensures Digits4(a * 0x100_0000 + b * 0x1_0000 + c * 0x100 + d) == [a, b, c, d]
  {
    Digits(a, b, c, d);
    DigitOf(a, b);
    DigitOf(a * 0x100 + b, c);
  }

  function Digits4(v: U32): seq<Byte> {
    [v / 0x100_0000, v / 0x1_0000 % 0x100, v / 0x100 % 0x100, v % 0x100]
  }

  /** Bytes in the middle of a string stay where they are, however it is grouped. */
  lemma Middle(a: seq<Byte>, b: seq<Byte>, c: seq<Byte>, d: seq<Byte>)
    ensures a + (b + (c + d)) == (a + b) + (c + d)
  {}

  lemma RunIn(pre: seq<Byte>, r: Run, post: seq<Byte>)
    ensures |PutRun(r)| == 16 && RunAt(pre + (PutRun(r) + post), |pre|, r)
  {
    var p0, p1, p2, p3, p4 := Put(r.repeat, 2), Put(r.cell.scalar, 4), Put(r.cell.fg.Packed(), 4),
      Put(r.cell.bg.Packed(), 4), Put(r.cell.style, 2);
    var s4 := p4 + post;
    var s3 := p3 + s4;
    var s2 := p2 + s3;
    var s1 := p1 + s2;
    var d := pre + (p0 + s1);
    assert PutRun(r) + post == p0 + s1;
    ShortIn(pre, r.repeat, s1);
    assert d == (pre + p0) + s1;
    WideIn(pre + p0, r.cell.scalar, s2);
    assert d == (pre + p0 + p1) + s2;
    ColorIn(pre + p0 + p1, r.cell.fg, s3);
    assert d == (pre + p0 + p1 + p2) + s3;
    ColorIn(pre + p0 + p1 + p2, r.cell.bg, s4);
    assert d == (pre + p0 + p1 + p2 + p3) + s4;
    ShortIn(pre + p0 + p1 + p2 + p3, r.cell.style, post);
  }

  lemma {:induction false} RunsIn(pre: seq<Byte>, runs: seq<Run>, post: seq<Byte>)
    ensures |Flatten(PutRun, runs)| == 16 * |runs| && RunsAt(pre + (Flatten(PutRun, runs) + post), |pre|, runs)
    decreases |runs|
  {
    if runs != [] {
      var rest := Flatten(PutRun, runs[1..]);
      RunIn(pre, runs[0], rest + post);
      RunsIn(pre + PutRun(runs[0]), runs[1..], post);
      Assoc(PutRun(runs[0]), rest, post);
      Middle(pre, PutRun(runs[0]), rest, post);
    }
  }

  lemma RowIn(pre: seq<Byte>, row: Changed, post: seq<Byte>)
    requires RowEncodable(row)
    ensures var b := RowBytes(row);
            |b| == RowSize(row) && RowAt(pre + (b + post), |pre|, row)
  {
    var runs := Runs(row.cells);
    var p0, p1, p2 := Put(row.y, 2), Put(|runs|, 2), Flatten(PutRun, runs);
    var d := pre + ((p0 + (p1 + p2)) + post);
    Threefold(pre, p0, p1, p2, post);
    RunsIn(pre + p0 + p1, runs, post);
    ShortIn(pre, row.y, p1 + (p2 + post));
    ShortIn(pre + p0, |runs|, p2 + post);
    assert Put(row.y, 2) + PutRow(row.cells) == p0 + (p1 + p2);
  }

  lemma Threefold(pre: seq<Byte>, a: seq<Byte>, b: seq<Byte>, c: seq<Byte>, post: seq<Byte>)
    ensures var d := pre + ((a + (b + c)) + post);
            d == pre + (a + (b + (c + post))) && d == (pre + a) + (b + (c + post)) && d == (pre + a + b) + (c + post)
  {}

  lemma {:induction false} RowsIn(d: seq<Byte>, pre: seq<Byte>, at: nat, rows: seq<Changed>)
    requires RowsEncodable(rows) && d == pre + PutRows(rows) && at == |pre|
    ensures RowsAt(d, at, rows)
    decreases |rows|
  {
    if rows == [] {
      Neutral(pre);
    } else {
      var b, rest := RowBytes(rows[0]), PutRows(rows[1..]);
      FirstRow(d, pre, at, rows);
      RowsIn(d, pre + b, at + RowSize(rows[0]), rows[1..]);
      RowsMore(d, at, rows, true, true);
    }
  }

  lemma FirstRow(d: seq<Byte>, pre: seq<Byte>, at: nat, rows: seq<Changed>)
    requires rows != [] && RowsEncodable(rows) && d == pre + PutRows(rows) && at == |pre|
    ensures var b := RowBytes(rows[0]);
            |b| == RowSize(rows[0]) && d == (pre + b) + PutRows(rows[1..]) && RowAt(d, at, rows[0])
  {
    var b, rest := RowBytes(rows[0]), PutRows(rows[1..]);
    RowIn(pre, rows[0], rest);
    Assoc(pre, b, rest);
  }

  /** The rows are laid out when the first is and the rest are; `first` and `more` keep the two
      questions closed. */
  lemma RowsMore(d: seq<Byte>, at: nat, rows: seq<Changed>, first: bool, more: bool)
    requires rows != [] && first == RowAt(d, at, rows[0]) && more == RowsAt(d, at + RowSize(rows[0]), rows[1..])
    ensures RowsAt(d, at, rows) == (first && more)
  {}

  function RowBytes(row: Changed): seq<Byte>
    requires RowEncodable(row)
  {
    Put(row.y, 2) + PutRow(row.cells)
  }

  lemma HeaderIn(u: GridUpdate, post: seq<Byte>)
    requires Encodable(u)
    ensures var d := PutHeader(u) + post;
            && |PutHeader(u)| == 11
            && Short(d, 0, u.cols) && Short(d, 2, u.rows)
            && Short(d, 4, InRange(u.cursorCol)) && Short(d, 6, InRange(u.cursorRow))
            && d[8] < 4 && (d[8] % 2 == 1 <==> u.cursorVisible) && (d[8] / 2 == 1 <==> u.isFullSnapshot)
            && Short(d, 9, |u.changedRows|)
  {
    PutTwo(u.cols);
    PutTwo(u.rows);
    PutTwo(Clamp(u.cursorCol));
    PutTwo(Clamp(u.cursorRow));
    PutTwo(|u.changedRows|);
  }

  lemma EncodedIsLaid(u: GridUpdate)
    requires Encodable(u)
    ensures Laid(Encoded(u), u)
  {
    HeaderIn(u, PutRows(u.changedRows));
    RowsIn(Encoded(u), PutHeader(u), 11, u.changedRows);
  }

  // ---- what a decoder reads -------------------------------------------------------

  function Two(a: int, b: int): int { a * 0x100 + b }

  function Four(a: int, b: int, c: int, d: int): int { a * 0x100_0000 + b * 0x1_0000 + c * 0x100 + d }

  lemma WordBytes(bs: seq<Byte>)
    ensures Word(bs) == if |bs| < 2 then Taken.Short else Taken(Two(bs[0], bs[1]), bs[2..])
  {
    if |bs| >= 2 {
      var two := bs[..2];
      assert two[..1] == [two[0]] && two[..1][..0] == [];
      assert Get(two[..1]) == two[0];
    }
  }

  lemma LongBytes(bs: seq<Byte>)
    ensures Long(bs) == if |bs| < 4 then Taken.Short
                        else Taken(Four(bs[0], bs[1], bs[2], bs[3]), bs[4..])
  {
    if |bs| >= 4 {
      var four := bs[..4];
      assert four[..3][..2] == four[..2] && four[..2][..1] == four[..1] && four[..1][..0] == [];
      assert Get(four[..1]) == four[0] && Get(four[..2]) == Two(four[0], four[1]);
      assert Get(four[..3]) == Four(0, four[0], four[1], four[2]);
    }
  }

  function ColorOf(a: Byte, b: Byte, c: Byte, d: Byte): Color {
    if a == 0 then Default else if a == 1 then Inverted else if a == 2 then Ansi(d) else Rgb(b, c, d)
  }

  lemma UnpackBytes(a: Byte, b: Byte, c: Byte, d: Byte)
    ensures Unpack(Four(a, b, c, d)) == ColorOf(a, b, c, d)
  {
    Digits(a, b, c, d);
    DigitOf(a, b);
    DigitOf(a * 0x100 + b, c);
  }

  /** A run is read from sixteen bytes, or not at all. */
  lemma RunBytes(bs: seq<Byte>)
    ensures |bs| < 16 ==> GetRun(bs).Short?
    ensures |bs| >= 16 ==>
              GetRun(bs) == Taken(Run(Two(bs[0], bs[1]),
                                      Cell(Four(bs[2], bs[3], bs[4], bs[5]),
                                           ColorOf(bs[6], bs[7], bs[8], bs[9]), ColorOf(bs[10], bs[11], bs[12], bs[13]),
                                           Two(bs[14], bs[15]))),
                                  bs[16..])
  {
    WordBytes(bs);
    if |bs| >= 2 {
      LongBytes(bs[2..]);
      if |bs| >= 6 {
        assert bs[2..][4..] == bs[6..];
        LongBytes(bs[6..]);
        if |bs| >= 10 {
          assert bs[6..][4..] == bs[10..];
          UnpackBytes(bs[6], bs[7], bs[8], bs[9]);
          LongBytes(bs[10..]);
          if |bs| >= 14 {
            assert bs[10..][4..] == bs[14..];
            UnpackBytes(bs[10], bs[11], bs[12], bs[13]);
            WordBytes(bs[14..]);
            if |bs| >= 16 {
              assert bs[14..][2..] == bs[16..];
            }
          }
        }
      }
    }
  }

  lemma HeaderBytes(bs: seq<Byte>)
    ensures |bs| < 11 ==> GetHeader(bs).Short?
    ensures |bs| >= 11 ==>
              GetHeader(bs) == Taken(Header(Two(bs[0], bs[1]), Two(bs[2], bs[3]), Two(bs[4], bs[5]),
                                            Two(bs[6], bs[7]), bs[8], Two(bs[9], bs[10])), bs[11..])
  {
    if |bs| >= 11 {
      WordBytes(bs[0..]);
      WordBytes(bs[2..]);
      WordBytes(bs[4..]);
      WordBytes(bs[6..]);
      WordBytes(bs[9..]);
    }
  }

  lemma {:induction false} RowsCounted(bs: seq<Byte>, count: nat)
    ensures GetRows(bs, count).Taken? ==> |GetRows(bs, count).value| == count
    decreases count
  {
    if count > 0 && Word(bs).Taken? && GetRow(Word(bs).rest).Taken? {
      RowsCounted(GetRow(Word(bs).rest).rest, count - 1);
    }
  }

  /** Whatever the payload: what the decoder makes of its first eleven bytes. */
  lemma DecodedFromBytes(bs: seq<Byte>)
    ensures |bs| < 11 ==> Decoded(bs).None?
    ensures Decoded(bs).Some? ==>
              var u := Decoded(bs).value;
              && Short(bs, 0, u.cols) && Short(bs, 2, u.rows) && Short(bs, 4, u.cursorCol) && Short(bs, 6, u.cursorRow)
              && (u.cursorVisible <==> bs[8] % 2 == 1) && (u.isFullSnapshot <==> bs[8] / 2 % 2 == 1)
              && Short(bs, 9, |u.changedRows|)
  {
    HeaderBytes(bs);
    if |bs| >= 11 {
      RowsCounted(bs[11..], Two(bs[9], bs[10]));
    }
  }
}
