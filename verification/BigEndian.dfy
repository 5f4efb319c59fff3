/** Fixed-width big-endian integers, as the spill header and the wire formats write them. */
module BigEndian {
  import opened Bytes

  function Pow256(width: nat): (p: nat)
    ensures p > 0
  {
    if width == 0 then 1 else 256 * Pow256(width - 1)
  }

  function Put(v: nat, width: nat): (bs: seq<Byte>)
    ensures |bs| == width
  {
    if width == 0 then [] else Put(v / 256, width - 1) + [v % 256]
  }

  function Get(bs: seq<Byte>): nat {
    if bs == [] then 0 else 256 * Get(bs[..|bs| - 1]) + bs[|bs| - 1]
  }

  lemma {:induction false} GetPut(v: nat, width: nat)
    requires v < Pow256(width)
    ensures Get(Put(v, width)) == v
  {
    if width > 0 {
      GetPut(v / 256, width - 1);
      assert Put(v, width)[..width - 1] == Put(v / 256, width - 1);
    }
  }

  /** The digit of `v` in base 256 that has `k` digits after it. */
  function Digit(v: nat, k: nat): Byte {
    if k == 0 then v % 256 else Digit(v / 256, k - 1)
  }

  /** The bytes are the digits, the most significant first. */
  lemma {:induction false} PutDigit(v: nat, width: nat, i: nat)
    requires i < width
    ensures Put(v, width)[i] == Digit(v, width - 1 - i)
  {
    if i < width - 1 {
      PutDigit(v / 256, width - 1, i);
    }
  }

  lemma PutTwo(v: nat)
    requires v < 0x1_0000
    ensures Put(v, 2) == [v / 0x100, v % 0x100]
  {
    assert Put(v / 0x100, 1) == Put(v / 0x100 / 0x100, 0) + [v / 0x100 % 0x100];
  }

  lemma PutFour(v: nat)
    requires v < 0x1_0000_0000
    ensures Put(v, 4) == [v / 0x100_0000, v / 0x1_0000 % 0x100, v / 0x100 % 0x100, v % 0x100]
  {
    assert v / 0x100 / 0x100 == v / 0x1_0000;
    PutTwo(v / 0x1_0000);
    assert v / 0x1_0000 / 0x100 == v / 0x100_0000;
    assert Put(v / 0x100, 3) == Put(v / 0x100 / 0x100, 2) + [v / 0x100 % 0x100];
    assert Put(v, 4) == Put(v / 0x100, 3) + [v % 0x100];
  }

  lemma {:induction false} GetBound(bs: seq<Byte>)
    ensures Get(bs) < Pow256(|bs|)
  {
    if bs != [] {
      GetBound(bs[..|bs| - 1]);
    }
  }

  lemma {:induction false} PutGet(bs: seq<Byte>)
    ensures Put(Get(bs), |bs|) == bs
  {
    if bs != [] {
      PutGet(bs[..|bs| - 1]);
    }
  }

  lemma Widths()
    ensures Pow256(1) == 0x100 && Pow256(2) == 0x1_0000 && Pow256(4) == 0x1_0000_0000
    ensures Pow256(8) == 0x1_0000_0000_0000_0000
  {
    assert Pow256(3) == 0x100_0000 && Pow256(6) == 0x1_0000_0000_0000;
  }
}
