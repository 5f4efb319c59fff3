/**
 The data channel: frames with a type and a length, read from a stream that arrives in
 arbitrary pieces, and the grid updates inside them.
*/
module Frames {
  import opened Wrappers
  import opened Bytes
  import opened BigEndian
  import opened Streaming
  import opened GridCodec
  import opened GridLayout

  const GRID := 8
  const MAX_FRAME: nat := 16 * 1024 * 1024

  predicate KnownType(t: int) { 1 <= t <= 10 }

  type FrameType = t: int | KnownType(t) witness 1

  datatype Frame = Frame(kind: FrameType, payload: seq<Byte>) {
    /** For a grid frame, the decoded update. */
    function GridPayload(): Option<GridUpdate> {
      if kind == GRID then Decoded(payload) else None
    }
  }

  datatype Error = UnknownType(t: Byte) | TooLong

  function Length(bs: seq<Byte>): nat
    requires |bs| >= 5
  {
    Get(bs[1..5])
  }

  /** The header at the front is one no encoder writes. */
  predicate Bad(bs: seq<Byte>) {
    |bs| >= 5 && (!KnownType(bs[0]) || Length(bs) > MAX_FRAME)
  }

  function ErrorOf(bs: seq<Byte>): Error
    requires Bad(bs)
  {
    if !KnownType(bs[0]) then UnknownType(bs[0]) else TooLong
  }

  function FrameFront(bs: seq<Byte>): Front<Frame> {
    if |bs| < 5 || Bad(bs) || |bs| < 5 + Length(bs) then More
    else Item(Frame(bs[0], bs[5..5 + Length(bs)]), 5 + Length(bs))
  }

  lemma HeaderOfMore(a: seq<Byte>, b: seq<Byte>)
    requires |a| >= 5
    ensures Length(a + b) == Length(a) && Bad(a + b) == Bad(a)
  {
    assert (a + b)[1..5] == a[1..5];
  }

  lemma FramesAreStable()
    ensures Stable(FrameFront)
  {
    forall a, b | Takes(FrameFront(a), a)
      ensures FrameFront(a + b) == FrameFront(a)
    {
      HeaderOfMore(a, b);
      assert (a + b)[5..5 + Length(a)] == a[5..5 + Length(a)];
    }
  }

  function Encode(f: Frame): seq<Byte> {
    [f.kind] + Put(|f.payload|, 4) + f.payload
  }

  /** A frame's five header bytes, its type and its payload's length, and then the payload. */
  lemma FrameBytes(f: Frame)
    requires |f.payload| < 0x1_0000_0000
    ensures var d, n := Encode(f), |f.payload|;
            && |d| == 5 + n && d[0] == f.kind
            && d[1] == n / 0x100_0000 && d[2] == n / 0x1_0000 % 0x100 && d[3] == n / 0x100 % 0x100 && d[4] == n % 0x100
            && d[5..] == f.payload
  {
    PutFour(|f.payload|);
  }

  /** Which headers are refused, from the five bytes: types 1 to 10, and 16 MiB at most. */
  lemma RefusedHeaders(bs: seq<Byte>)
    ensures Bad(bs) <==>
              |bs| >= 5 &&
              (bs[0] == 0 || bs[0] > 10 ||
               Four(bs[1], bs[2], bs[3], bs[4]) > 0x100_0000)
    ensures Bad(bs) ==> ErrorOf(bs) == if bs[0] == 0 || bs[0] > 10 then UnknownType(bs[0]) else TooLong
  {
    if |bs| >= 5 {
      LongBytes(bs[1..5]);
      assert bs[1..5][..4] == bs[1..5];
    }
  }

  predicate Sendable(f: Frame) { |f.payload| <= MAX_FRAME }

  lemma FrontOfEncode(f: Frame, rest: seq<Byte>)
    requires Sendable(f)
    ensures FrameFront(Encode(f) + rest) == Item(f, 5 + |f.payload|)
    ensures (Encode(f) + rest)[5 + |f.payload|..] == rest
  {
    var bs := Encode(f) + rest;
    assert bs[1..5] == Put(|f.payload|, 4);
    Widths();
    GetPut(|f.payload|, 4);
    assert bs[5..5 + |f.payload|] == f.payload;
  }

  predicate AllSendable(fs: seq<Frame>) {
    forall f | f in fs :: Sendable(f)
  }

  lemma {:induction false} ParseEncoded(fs: seq<Frame>)
    requires AllSendable(fs)
    ensures Parse(FrameFront, Flatten(Encode, fs)) == Parsed(fs, [])
  {
    if fs != [] {
      var rest := Flatten(Encode, fs[1..]);
      FrontOfEncode(fs[0], rest);
      ParseEncoded(fs[1..]);
      assert [fs[0]] + fs[1..] == fs;
    }
  }

  lemma BadStays(bs: seq<Byte>, more: seq<Byte>)
    ensures Bad(bs) ==> Parse(FrameFront, bs + more).held == bs + more
  {
    if |bs| >= 5 {
      HeaderOfMore(bs, more);
    }
  }

  /** A stream cut short inside good frames never looks bad. */
  lemma PrefixIsGood(a: seq<Byte>, b: seq<Byte>)
    requires Parse(FrameFront, a + b).held == []
    ensures !Bad(Parse(FrameFront, a).held)
  {
    FramesAreStable();
    var held := Parse(FrameFront, a).held;
    ParseConcat(FrameFront, a, b);
    BadStays(held, b);
  }

  /** Frames sent through any cuts come out as they went in. */
  lemma FramesRoundTrip(fs: seq<Frame>, chunks: seq<seq<Byte>>)
    requires AllSendable(fs) && Concat(chunks) == Flatten(Encode, fs)
    ensures ParseChunks(FrameFront, [], chunks) == Parsed(fs, [])
  {
    FramesAreStable();
    ChunkingIsInvisible(FrameFront, [], chunks);
    assert [] + Concat(chunks) == Concat(chunks);
    ParseEncoded(fs);
  }

  class FrameCodec {
    var buffer: seq<Byte>

    constructor ()
      ensures buffer == []
    {
      buffer := [];
    }

    /** Takes every complete frame off the buffer; a bad header stays at its front. */
    method Append(data: seq<Byte>) returns (r: Result<seq<Frame>, Error>)
      modifies this
      ensures var p := Parse(FrameFront, old(buffer) + data);
              buffer == p.held && r == if Bad(p.held) then Err(ErrorOf(p.held)) else Ok(p.tokens)
    {
      ghost var all := old(buffer) + data;
      buffer := buffer + data;
      var frames := [];
      assert Parse(FrameFront, all).tokens == [] + Parse(FrameFront, all).tokens;
      while |buffer| >= 5
        invariant Parse(FrameFront, all) ==
                    Parsed(frames + Parse(FrameFront, buffer).tokens, Parse(FrameFront, buffer).held)
        decreases |buffer|
      {
        if !KnownType(buffer[0]) {
          return Err(UnknownType(buffer[0]));
        }
        var length := Get(buffer[1..5]);
        if length > MAX_FRAME {
          return Err(TooLong);
        }
        if |buffer| < 5 + length {
          break;
        }
        var frame := Frame(buffer[0], buffer[5..5 + length]);
        ghost var rest := Parse(FrameFront, buffer[5 + length..]).tokens;
        assert frames + ([frame] + rest) == (frames + [frame]) + rest;
        buffer := buffer[5 + length..];
        frames := frames + [frame];
      }
      assert frames + [] == frames;
      return Ok(frames);
    }
  }

  // ---- the whole stack ------------------------------------------------------------

  function GridFrame(u: GridUpdate): Frame
    requires Encodable(u)
  {
    Frame(GRID, Encoded(u))
  }

  predicate Wireable(u: GridUpdate) {
    Encodable(u) && |Encoded(u)| <= MAX_FRAME && FitsWord(u.cursorCol) && FitsWord(u.cursorRow)
  }

  predicate AllWireable(us: seq<GridUpdate>) {
    forall i | 0 <= i < |us| :: Wireable(us[i])
  }

  function GridFrames(us: seq<GridUpdate>): (fs: seq<Frame>)
    requires AllWireable(us)
    ensures |fs| == |us| && forall i | 0 <= i < |us| :: fs[i] == GridFrame(us[i])
  {
    seq(|us|, i requires 0 <= i < |us| => GridFrame(us[i]))
  }

  /** Updates encoded, framed, run together and cut anywhere arrive as they were sent. */
  lemma UpdatesRoundTrip(us: seq<GridUpdate>, chunks: seq<seq<Byte>>)
    requires AllWireable(us) && Concat(chunks) == Flatten(Encode, GridFrames(us))
    ensures var got := ParseChunks(FrameFront, [], chunks);
            got.held == [] && |got.tokens| == |us| &&
            forall i | 0 <= i < |us| :: got.tokens[i].GridPayload() == Some(us[i])
  {
    var fs := GridFrames(us);
    FramesRoundTrip(fs, chunks);
    forall i | 0 <= i < |us|
      ensures fs[i].GridPayload() == Some(us[i])
    {
      DecodedEncoded(us[i], []);
      assert Encoded(us[i]) + [] == Encoded(us[i]);
    }
  }
}
