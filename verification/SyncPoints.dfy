/**
 Replay starting points. A clean replay begins where the program reset the whole
 screen: at an ESC c, or at a CSI 2 J. The log remembers the newest of them.
*/
module SyncPoints {
  import opened Bytes

  const MAX_POINTS: nat := 64

  /** A complete full-screen reset begins at offset `p` of the stream. */
  predicate ResetAt(h: seq<Byte>, p: nat) {
    p + 1 < |h| && h[p] == ESC &&
    (h[p + 1] == 0x63 || (p + 3 < |h| && h[p + 1] == 0x5B && h[p + 2] == 0x32 && h[p + 3] == 0x4A))
  }

  /** The resets that begin in `lo..hi`, oldest first. */
  function Resets(h: seq<Byte>, lo: nat, hi: nat): seq<nat> {
    if hi <= lo then []
    else Resets(h, lo, hi - 1) + (if ResetAt(h, hi - 1) then [hi - 1] else [])
  }

  ghost predicate Increasing(s: seq<nat>) {
    forall j, k :: 0 <= j < k < |s| ==> s[j] < s[k]
  }

  lemma {:induction false} ResetsExactly(h: seq<Byte>, lo: nat, hi: nat)
    ensures Increasing(Resets(h, lo, hi))
    ensures forall p :: p in Resets(h, lo, hi) <==> lo <= p < hi && ResetAt(h, p)
  {
    if lo < hi {
      ResetsExactly(h, lo, hi - 1);
      var s := Resets(h, lo, hi - 1);
      assert forall k :: 0 <= k < |s| ==> s[k] in s;
    }
  }

  /** The longest suffix of at most `n` points, all at or above `base`. */
  function Newest(s: seq<nat>, base: nat, n: nat): seq<nat> {
    if s == [] || n == 0 || s[|s| - 1] < base then []
    else Newest(s[..|s| - 1], base, n - 1) + [s[|s| - 1]]
  }

  lemma {:induction false} NewestExactly(s: seq<nat>, base: nat, n: nat)
    ensures var k := |Newest(s, base, n)|;
            && k <= n && k <= |s| && Newest(s, base, n) == s[|s| - k..]
            && (forall p :: p in Newest(s, base, n) ==> base <= p)
            && (k == n || k == |s| || s[|s| - k - 1] < base)
  {
    if s != [] && n > 0 && s[|s| - 1] >= base {
      NewestExactly(s[..|s| - 1], base, n - 1);
    }
  }

  function RemoveBelow(s: seq<nat>, base: nat): seq<nat> {
    if s == [] then []
    else RemoveBelow(s[..|s| - 1], base) + (if s[|s| - 1] < base then [] else [s[|s| - 1]])
  }

  lemma {:induction false} SameResets(h: seq<Byte>, h': seq<Byte>, lo: nat, hi: nat)
    requires forall p :: lo <= p < hi ==> ResetAt(h, p) == ResetAt(h', p)
    ensures Resets(h, lo, hi) == Resets(h', lo, hi)
  {
    if lo < hi {
      SameResets(h, h', lo, hi - 1);
    }
  }

  lemma {:induction false} NoMoreResets(h: seq<Byte>, lo: nat, mid: nat, hi: nat)
    requires mid <= hi && forall p :: mid <= p < hi ==> !ResetAt(h, p)
    ensures Resets(h, lo, hi) == Resets(h, lo, mid)
  {
    if mid < hi {
      NoMoreResets(h, lo, mid, hi - 1);
    }
  }

  lemma {:induction false} NewestOneLess(s: seq<nat>, base: nat, n: nat)
    requires n > 0
    ensures var kept := Newest(s, base, n);
            |kept| <= n && Newest(s, base, n - 1) == if |kept| == n then kept[1..] else kept
  {
    if s != [] && s[|s| - 1] >= base {
      if n > 1 {
        NewestOneLess(s[..|s| - 1], base, n - 1);
      }
    }
  }

  /** Appending a point and dropping the oldest beyond the bound. */
  lemma NewestAppend(s: seq<nat>, base: nat, p: nat)
    requires p >= base
    ensures Newest(s + [p], base, MAX_POINTS) == Trim(Newest(s, base, MAX_POINTS) + [p])
  {
    NewestOneLess(s, base, MAX_POINTS);
    assert (s + [p])[..|s|] == s;
    var kept := Newest(s, base, MAX_POINTS);
    if |kept| == MAX_POINTS {
      assert (kept + [p])[1..] == kept[1..] + [p];
    }
  }

  function Trim(s: seq<nat>): seq<nat> {
    if |s| > MAX_POINTS then s[|s| - MAX_POINTS..] else s
  }

  /** Adds a point unless it is the newest already, keeping the bound. */
  function Record(points: seq<nat>, p: nat): seq<nat> {
    if points != [] && points[|points| - 1] == p then points else Trim(points + [p])
  }

  lemma RecordSeen(h: seq<Byte>, since: nat, base: nat, p: nat)
    requires since <= p && base <= p && ResetAt(h, p)
    ensures var points := Newest(Resets(h, since, p + 1), base, MAX_POINTS); Record(points, p) == points
  {
  }

  lemma RecordNew(h: seq<Byte>, since: nat, base: nat, p: nat)
    requires since <= p && base <= p && ResetAt(h, p)
    ensures Record(Newest(Resets(h, since, p), base, MAX_POINTS), p) ==
            Newest(Resets(h, since, p + 1), base, MAX_POINTS)
  {
    var s := Resets(h, since, p);
    var points := Newest(s, base, MAX_POINTS);
    ResetsExactly(h, since, p);
    NewestExactly(s, base, MAX_POINTS);
    if points != [] {
      assert points[|points| - 1] == s[|s| - 1];
      assert s[|s| - 1] in s;
    }
    NewestAppend(s, base, p);
  }

  lemma RemoveSnoc(s: seq<nat>, p: nat, base: nat)
    ensures RemoveBelow(s + [p], base) == RemoveBelow(s, base) + if p < base then [] else [p]
  {
    assert (s + [p])[..|s|] == s;
  }

  /** Dropping the points a rotation left behind. */
  lemma {:induction false} NewestRebase(s: seq<nat>, base: nat, newBase: nat, n: nat)
    requires base <= newBase && Increasing(s)
    ensures RemoveBelow(Newest(s, base, n), newBase) == Newest(s, newBase, n)
  {
    if s != [] && n > 0 && s[|s| - 1] >= base {
      var init := s[..|s| - 1];
      var kept := Newest(init, base, n - 1);
      RemoveSnoc(kept, s[|s| - 1], newBase);
      NewestRebase(init, base, newBase, n - 1);
      assert init != [] ==> init[|init| - 1] < s[|s| - 1];
    }
  }

  /** Where scanning resumes after a chunk: just past the reset already seen inside the
      last three bytes, or at the start of those bytes when there is none. */
  function Resume(h: seq<Byte>, since: nat): nat
    requires since <= |h|
  {
    var c := CarryStart(h, since);
    if ResetAt(h, c) then c + 1 else if ResetAt(h, c + 1) then c + 2 else c
  }

  function CarryStart(h: seq<Byte>, since: nat): (c: nat)
    requires since <= |h|
  {
    if since + 3 <= |h| then |h| - 3 else since
  }

  /** More output can only reveal resets that begin in the last three bytes or later. */
  lemma ResetsSoFar(h: seq<Byte>, data: seq<Byte>, since: nat)
    requires since <= |h|
    ensures Resets(h, since, |h|) == Resets(h + data, since, Resume(h, since))
  {
    var r := Resume(h, since);
    assert forall p :: r <= p < |h| ==> !ResetAt(h, p);
    NoMoreResets(h, since, r, |h|);
    forall p | since <= p < r
      ensures ResetAt(h, p) == ResetAt(h + data, p)
    {
      SameBefore(h, data, since, p);
    }
    SameResets(h, h + data, since, r);
  }

  lemma SameBefore(h: seq<Byte>, data: seq<Byte>, since: nat, p: nat)
    requires since <= |h| && since <= p < Resume(h, since)
    ensures ResetAt(h, p) == ResetAt(h + data, p)
    ensures CarryStart(h, since) <= p && p + 1 < Resume(h, since) ==> !ResetAt(h, p)
  {
  }
}
