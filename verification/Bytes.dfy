/** Byte strings, and the subsequence order the streaming filters are judged by. */
module Bytes {
  type Byte = b: int | 0 <= b < 256

  const ESC: Byte := 0x1B

  /** The first index of `x`, or the length when it does not occur. */
  function FirstIndex(bs: seq<Byte>, x: Byte): (i: nat)
    ensures i <= |bs| && x !in bs[..i] && (i < |bs| ==> bs[i] == x)
  {
    if bs == [] || bs[0] == x then 0 else 1 + FirstIndex(bs[1..], x)
  }

  lemma {:induction false} FirstIndexIs(bs: seq<Byte>, x: Byte, i: nat)
    requires i < |bs| && bs[i] == x && x !in bs[..i]
    ensures FirstIndex(bs, x) == i
  {
    if i > 0 {
      assert bs[..i][0] == bs[0] && bs[1..][..i - 1] == bs[..i][1..];
      FirstIndexIs(bs[1..], x, i - 1);
    }
  }

  lemma SliceOfSlice<T>(s: seq<T>, a: nat, b: nat, i: nat, j: nat)
    requires a <= b <= |s| && i <= j <= b - a
    ensures s[a..b][i..j] == s[a + i..a + j]
  {
    var l, r := s[a..b][i..j], s[a + i..a + j];
    forall k | 0 <= k < |l|
      ensures l[k] == r[k]
    {
      assert l[k] == s[a..b][i + k] == s[a + (i + k)];
    }
  }

  lemma Assoc<T>(a: seq<T>, b: seq<T>, c: seq<T>)
    ensures (a + b) + c == a + (b + c)
  {}

  lemma Neutral<T>(a: seq<T>)
    ensures a + [] == a && [] + a == a
  {}

  lemma TailOfConcat<T>(a: seq<T>, b: seq<T>)
    requires a != []
    ensures (a + b)[1..] == a[1..] + b && (a + b)[0] == a[0]
  {}

  /** `small` is obtained from `large` by deleting bytes. */
  predicate Subsequence(small: seq<Byte>, large: seq<Byte>) {
    small == [] ||
    (large != [] && if small[0] == large[0] then Subsequence(small[1..], large[1..])
                    else Subsequence(small, large[1..]))
  }

  lemma {:induction false} SubsequenceSkip(small: seq<Byte>, large: seq<Byte>)
    requires small != [] && Subsequence(small, large)
    ensures Subsequence(small[1..], large)
    decreases |large|, 0
  {
    if small[0] == large[0] {
      SubsequenceGrow(small[1..], large[1..], large[0]);
      assert [large[0]] + large[1..] == large;
    } else {
      SubsequenceSkip(small, large[1..]);
      SubsequenceGrow(small[1..], large[1..], large[0]);
      assert [large[0]] + large[1..] == large;
    }
  }

  lemma {:induction false} SubsequenceGrow(small: seq<Byte>, large: seq<Byte>, b: Byte)
    requires Subsequence(small, large)
    ensures Subsequence(small, [b] + large)
    decreases |large|, 1
  {
    assert ([b] + large)[1..] == large;
    if small != [] && small[0] == b {
      SubsequenceSkip(small, large);
    }
  }

  lemma {:induction false} SubsequenceConcat(s1: seq<Byte>, l1: seq<Byte>, s2: seq<Byte>, l2: seq<Byte>)
    requires Subsequence(s1, l1) && Subsequence(s2, l2)
    ensures Subsequence(s1 + s2, l1 + l2)
  {
    if l1 == [] {
      assert s1 + s2 == s2 && l1 + l2 == l2;
    } else {
      var rest := l1[1..] + l2;
      assert l1 + l2 == [l1[0]] + rest;
      if s1 != [] && s1[0] == l1[0] {
        SubsequenceConcat(s1[1..], l1[1..], s2, l2);
        assert (s1 + s2)[1..] == s1[1..] + s2;
        assert (l1 + l2)[1..] == rest;
      } else {
        SubsequenceConcat(s1, l1[1..], s2, l2);
        SubsequenceGrow(s1 + s2, rest, l1[0]);
      }
    }
  }

  lemma {:induction false} SubsequenceRefl(s: seq<Byte>)
    ensures Subsequence(s, s)
  {
    if s != [] {
      SubsequenceRefl(s[1..]);
    }
  }
}
