/**
 In-band exit markers. A holder ends a session's output with an OSC string carrying
 the child's exit status; the daemon strips such strings before the emulator sees
 them, however the stream was cut into reads. `Scan` reads the front of a byte string;
 `Drain` is the loop the daemon runs on its accumulator.

 Everything below holds for every prefix that starts with ESC, contains no other ESC
 and no terminator; `Prefix`, the one the daemon uses, is such a prefix.
*/
module ExitMarker {
  import opened Wrappers
  import opened Bytes
  import opened Streaming

  const TERMINATOR: Byte := 0x07

  type MarkerPrefix = p: seq<Byte> |
    p != [] && p[0] == ESC && TERMINATOR !in p && ESC !in p[1..]
    witness [0x1B]

  datatype Token = Text(byte: Byte) | Marker(payload: seq<Byte>)

  /** The marker prefix the holder writes: ESC ] 777;dirijor-exit= */
  function Prefix(): MarkerPrefix {
    [0x1B, 0x5D, 0x37, 0x37, 0x37, 0x3B, 0x64, 0x69, 0x72, 0x69,
     0x6A, 0x6F, 0x72, 0x2D, 0x65, 0x78, 0x69, 0x74, 0x3D]
  }

  /** A marker where one starts, nothing yet while one could be starting, otherwise
      one byte of text. */
  function ScanFront(prefix: MarkerPrefix, bs: seq<Byte>): Front<Token> {
    if prefix <= bs then
      var end := MarkerEnd(prefix, bs);
      if end == |bs| then More else Item(Marker(bs[|prefix|..end]), end + 1)
    else if bs <= prefix then More
    else Item(Text(bs[0]), 1)
  }

  function Scan(prefix: MarkerPrefix): Reader<Token> {
    bs => ScanFront(prefix, bs)
  }

  /** Where the marker at the front of `bs` ends, or the length when it does not. */
  function MarkerEnd(prefix: MarkerPrefix, bs: seq<Byte>): (end: nat)
    requires prefix <= bs
    ensures |prefix| <= end <= |bs|
  {
    assert bs[..|prefix|] == prefix && TERMINATOR !in bs[..|prefix|];
    var end := FirstIndex(bs, TERMINATOR);
    FirstIndexAfter(bs, TERMINATOR, |prefix|);
    end
  }

  lemma {:induction false} FirstIndexAfter(bs: seq<Byte>, x: Byte, n: nat)
    requires n <= |bs| && x !in bs[..n]
    ensures n <= FirstIndex(bs, x)
  {
    if n > 0 {
      assert bs[..n][0] == bs[0] && bs[1..][..n - 1] == bs[..n][1..];
      FirstIndexAfter(bs[1..], x, n - 1);
    }
  }

  /** What reaches the emulator. */
  function Stripped(tokens: seq<Token>): seq<Byte> {
    if tokens == [] then [] else TextOf(tokens[0]) + Stripped(tokens[1..])
  }

  function TextOf(t: Token): seq<Byte> {
    match t
    case Text(b) => [b]
    case Marker(_) => []
  }

  /** A marker on the wire, around an already base64-encoded payload. */
  function Encode(prefix: MarkerPrefix, payload: seq<Byte>): seq<Byte> {
    prefix + payload + [TERMINATOR]
  }

  /** The bytes a token is read from. */
  function Spell(prefix: MarkerPrefix): Token -> seq<Byte> {
    (t: Token) => match t case Text(b) => [b] case Marker(p) => Encode(prefix, p)
  }

  /** The last marker payload that `decode` accepts. */
  function LastExit<S>(decode: seq<Byte> -> Option<S>, tokens: seq<Token>): Option<S> {
    if tokens == [] then None
    else
      var later := LastExit(decode, tokens[1..]);
      if later.Some? then later
      else match tokens[0] case Text(_) => None case Marker(p) => decode(p)
  }

  /** A marker has begun and not ended. */
  predicate Open(prefix: MarkerPrefix, held: seq<Byte>) {
    prefix <= held
  }

  function Texts(bs: seq<Byte>): (ts: seq<Token>)
    ensures |ts| == |bs| && forall i :: 0 <= i < |bs| ==> ts[i] == Text(bs[i])
  {
    seq(|bs|, i requires 0 <= i < |bs| => Text(bs[i]))
  }

  function Last(bs: seq<Byte>, n: nat): seq<Byte>
    requires n <= |bs|
  {
    bs[|bs| - n..]
  }

  predicate PrefixAt(prefix: MarkerPrefix, bs: seq<Byte>, j: nat)
    requires j <= |bs|
  {
    prefix <= bs[j..]
  }

  /** Neither a marker nor the beginning of one at position `j`. */
  predicate PlainAt(prefix: MarkerPrefix, bs: seq<Byte>, j: nat)
    requires j <= |bs|
  {
    !PrefixAt(prefix, bs, j) && !(bs[j..] <= prefix)
  }

  // ---------------------------------------------------------------- concatenation

  lemma {:induction false} StrippedConcat(a: seq<Token>, b: seq<Token>)
    ensures Stripped(a + b) == Stripped(a) + Stripped(b)
  {
    if a == [] {
      Neutral(b);
    } else {
      TailOfConcat(a, b);
      StrippedConcat(a[1..], b);
      Assoc(TextOf(a[0]), Stripped(a[1..]), Stripped(b));
    }
  }

  lemma {:induction false} LastExitConcat<S>(decode: seq<Byte> -> Option<S>, a: seq<Token>, b: seq<Token>)
    ensures LastExit(decode, a + b) ==
            if LastExit(decode, b).Some? then LastExit(decode, b) else LastExit(decode, a)
  {
    if a == [] {
      assert a + b == b;
    } else {
      LastExitConcat(decode, a[1..], b);
      assert (a + b)[1..] == a[1..] + b;
    }
  }

  lemma {:induction false} StrippedTexts(bs: seq<Byte>)
    ensures Stripped(Texts(bs)) == bs
  {
    if bs != [] {
      StrippedTexts(bs[1..]);
      assert Texts(bs)[1..] == Texts(bs[1..]);
    }
  }

  lemma {:induction false} LastExitTexts<S>(decode: seq<Byte> -> Option<S>, bs: seq<Byte>)
    ensures LastExit(decode, Texts(bs)) == None
  {
    if bs != [] {
      LastExitTexts(decode, bs[1..]);
      assert Texts(bs)[1..] == Texts(bs[1..]);
    }
  }

  // ------------------------------------------------------------------ the reading

  lemma PrefixesDiffer(p: seq<Byte>, a: seq<Byte>, b: seq<Byte>)
    requires !(p <= a) && !(a <= p)
    ensures !(p <= a + b) && !(a + b <= p)
  {
    var k :| 0 <= k < |a| && k < |p| && a[k] != p[k];
    assert (a + b)[k] == a[k];
  }

  lemma ScanFrontStable(prefix: MarkerPrefix, a: seq<Byte>, b: seq<Byte>)
    requires ScanFront(prefix, a).Item?
    ensures ScanFront(prefix, a + b) == ScanFront(prefix, a)
  {
    if prefix <= a {
      var end := MarkerEnd(prefix, a);
      assert (a + b)[..end] == a[..end];
      FirstIndexIs(a + b, TERMINATOR, end);
      assert (a + b)[|prefix|..end] == a[|prefix|..end];
    } else {
      PrefixesDiffer(prefix, a, b);
    }
  }

  /** A byte already classified stays so: hence stripping cannot depend on how the
      stream is cut (see Streaming.ChunkingIsInvisible). */
  lemma ScanIsStable(prefix: MarkerPrefix)
    ensures Stable(Scan(prefix))
  {
    forall a, b | Takes(Scan(prefix)(a), a)
      ensures Scan(prefix)(a + b) == Scan(prefix)(a)
    {
      ScanFrontStable(prefix, a, b);
    }
  }

  /** Nothing is lost or invented: markers, text and the held tail spell the input. */
  lemma ScanLossless(prefix: MarkerPrefix, bs: seq<Byte>)
    ensures Flatten(Spell(prefix), Parse(Scan(prefix), bs).tokens) + Parse(Scan(prefix), bs).held == bs
  {
    forall a | Takes(Scan(prefix)(a), a)
      ensures Spell(prefix)(Scan(prefix)(a).token) == a[..Scan(prefix)(a).width]
    {
      if prefix <= a {
        var end := MarkerEnd(prefix, a);
        assert a[..|prefix|] == prefix;
        assert a[..end] == prefix + a[|prefix|..end];
        assert a[..end + 1] == a[..end] + [TERMINATOR];
      }
    }
    ParseLossless(Scan(prefix), Spell(prefix), bs);
  }

  lemma PlainStep(prefix: MarkerPrefix, bs: seq<Byte>)
    requires PlainAt(prefix, bs, 0)
    ensures bs != [] && ScanFront(prefix, bs) == Item(Text(bs[0]), 1)
  {
    assert bs[0..] == bs;
  }

  lemma TextsCons(bs: seq<Byte>, n: nat, later: seq<Token>)
    requires 0 < n <= |bs|
    ensures Texts(bs[..n]) + later == [Text(bs[0])] + (Texts(bs[1..][..n - 1]) + later)
  {
  }

  /** Positions that are plain text are read as text. */
  lemma {:induction false} ParseText(prefix: MarkerPrefix, bs: seq<Byte>, n: nat)
    requires n <= |bs|
    requires forall j :: 0 <= j < n ==> PlainAt(prefix, bs, j)
    ensures var rest := Parse(Scan(prefix), bs[n..]);
            Parse(Scan(prefix), bs) == Parsed(Texts(bs[..n]) + rest.tokens, rest.held)
  {
    var rest := Parse(Scan(prefix), bs[n..]);
    if n == 0 {
      assert bs[0..] == bs && Texts(bs[..0]) + rest.tokens == rest.tokens;
    } else {
      var tail := bs[1..];
      PlainStep(prefix, bs);
      forall j | 0 <= j < n - 1
        ensures PlainAt(prefix, tail, j)
      {
        assert PlainAt(prefix, bs, j + 1) && tail[j..] == bs[j + 1..];
      }
      ParseText(prefix, tail, n - 1);
      assert tail[n - 1..] == bs[n..];
      TextsCons(bs, n, rest.tokens);
    }
  }

  /** No longer suffix could still become a marker. */
  ghost predicate LongestHeld(prefix: MarkerPrefix, bs: seq<Byte>, held: nat) {
    forall n :: held < n <= |bs| ==> !(Last(bs, n) <= prefix)
  }

  /** The held tail is either one unterminated marker, or the longest suffix of the
      input that is a proper prefix of the marker prefix. */
  lemma {:induction false} HeldTail(prefix: MarkerPrefix, bs: seq<Byte>)
    ensures var held := Parse(Scan(prefix), bs).held;
            if Open(prefix, held) then TERMINATOR !in held
            else held < prefix && LongestHeld(prefix, bs, |held|)
    decreases |bs|
  {
    var held := Parse(Scan(prefix), bs).held;
    var front := ScanFront(prefix, bs);
    if front.Item? {
      HeldTail(prefix, bs[front.width..]);
      if !Open(prefix, held) {
        LongestHeldStep(prefix, bs, |held|);
      }
    } else if prefix <= bs {
      assert bs[..|bs|] == bs;
    }
  }

  lemma LongestHeldStep(prefix: MarkerPrefix, bs: seq<Byte>, held: nat)
    requires ScanFront(prefix, bs).Item?
    requires LongestHeld(prefix, bs[ScanFront(prefix, bs).width..], held)
    ensures LongestHeld(prefix, bs, held)
  {
    var rest := bs[ScanFront(prefix, bs).width..];
    forall n | held < n <= |bs|
      ensures !(Last(bs, n) <= prefix)
    {
      if n <= |rest| {
        assert Last(bs, n) == Last(rest, n);
      } else if ScanFront(prefix, bs).token.Marker? {
        assert Last(bs, n)[n - |rest| - 1] == TERMINATOR;
      } else {
        assert Last(bs, n) == bs;
      }
    }
  }

  /** A marker appended whole is always recognised, unless an earlier one is still open.
      The bytes held back before it turn out to be text. */
  lemma AppendedMarker(prefix: MarkerPrefix, before: seq<Byte>, payload: seq<Byte>)
    requires TERMINATOR !in payload
    requires !Open(prefix, Parse(Scan(prefix), before).held)
    ensures var was := Parse(Scan(prefix), before);
            Parse(Scan(prefix), before + Encode(prefix, payload)) ==
            Parsed(was.tokens + (Texts(was.held) + [Marker(payload)]), [])
  {
    var held := Parse(Scan(prefix), before).held;
    var marker := Encode(prefix, payload);
    HeldTail(prefix, before);
    ScanIsStable(prefix);
    ParseConcat(Scan(prefix), before, marker);
    forall j | 0 <= j < |held|
      ensures PlainAt(prefix, held + marker, j)
    {
      InsideHeld(prefix, held, marker, j);
    }
    ParseText(prefix, held + marker, |held|);
    assert (held + marker)[..|held|] == held && (held + marker)[|held|..] == marker;
    ParseEncoded(prefix, payload);
  }

  /** A marker appended while another is open is swallowed: the two read as one marker,
      whose payload is the open one's so far, the prefix, and the payload. */
  lemma SwallowedMarker(prefix: MarkerPrefix, before: seq<Byte>, payload: seq<Byte>)
    requires TERMINATOR !in payload
    requires Open(prefix, Parse(Scan(prefix), before).held)
    ensures var was := Parse(Scan(prefix), before);
            Parse(Scan(prefix), before + Encode(prefix, payload)) ==
            Parsed(was.tokens + [Marker(Joined(prefix, was.held, payload))], [])
  {
    var held := Parse(Scan(prefix), before).held;
    var joined := Joined(prefix, held, payload);
    HeldTail(prefix, before);
    ScanIsStable(prefix);
    ParseConcat(Scan(prefix), before, Encode(prefix, payload));
    assert TERMINATOR !in joined;
    JoinedSpells(prefix, held, payload);
    ParseEncoded(prefix, joined);
  }

  function Joined(prefix: MarkerPrefix, held: seq<Byte>, payload: seq<Byte>): seq<Byte>
    requires Open(prefix, held)
  {
    held[|prefix|..] + prefix + payload
  }

  lemma JoinedSpells(prefix: MarkerPrefix, held: seq<Byte>, payload: seq<Byte>)
    requires Open(prefix, held)
    ensures held + Encode(prefix, payload) == Encode(prefix, Joined(prefix, held, payload))
  {
    var rest := held[|prefix|..];
    assert held == prefix + rest;
  }

  /** What the marker `payload` is read as after `before`. */
  function ReadAs(prefix: MarkerPrefix, before: seq<Byte>, payload: seq<Byte>): seq<Byte> {
    var held := Parse(Scan(prefix), before).held;
    if Open(prefix, held) then Joined(prefix, held, payload) else payload
  }

  /** The marker prefix occurs nowhere in `bs`. */
  ghost predicate NoPrefix(prefix: MarkerPrefix, bs: seq<Byte>) {
    forall j | 0 <= j <= |bs| :: !PrefixAt(prefix, bs, j)
  }

  lemma NoPrefixTail(prefix: MarkerPrefix, bs: seq<Byte>, n: nat)
    requires NoPrefix(prefix, bs) && n <= |bs|
    ensures NoPrefix(prefix, bs[n..]) && !(prefix <= bs[n..])
  {
    assert !PrefixAt(prefix, bs, n);
    forall j | 0 <= j <= |bs| - n
      ensures !PrefixAt(prefix, bs[n..], j)
    {
      assert bs[n..][j..] == bs[n + j..] && !PrefixAt(prefix, bs, n + j);
    }
  }

  /** Without a prefix there is only text, and nothing is left open. */
  lemma {:induction false} PlainStream(prefix: MarkerPrefix, bs: seq<Byte>)
    requires NoPrefix(prefix, bs)
    ensures forall t | t in Parse(Scan(prefix), bs).tokens :: t.Text?
    ensures !Open(prefix, Parse(Scan(prefix), bs).held)
    decreases |bs|
  {
    NoPrefixTail(prefix, bs, 0);
    assert bs[0..] == bs;
    if ScanFront(prefix, bs).Item? {
      NoPrefixTail(prefix, bs, 1);
      PlainStream(prefix, bs[1..]);
    }
  }

  /** However far a stream of text and one last marker has been read, the only marker seen
      is that one. */
  lemma OnlyThatMarker(prefix: MarkerPrefix, text: seq<Byte>, payload: seq<Byte>, read: seq<Byte>, rest: seq<Byte>)
    requires NoPrefix(prefix, text) && TERMINATOR !in payload && read + rest == text + Encode(prefix, payload)
    ensures forall t | t in Parse(Scan(prefix), read).tokens :: t.Text? || t == Marker(payload)
  {
    PlainStream(prefix, text);
    AppendedMarker(prefix, text, payload);
    ScanIsStable(prefix);
    ParseConcat(Scan(prefix), read, rest);
    var was := Parse(Scan(prefix), text);
    var all := Parse(Scan(prefix), read + rest).tokens;
    assert all == was.tokens + (Texts(was.held) + [Marker(payload)]);
    forall t | t in Parse(Scan(prefix), read).tokens
      ensures t.Text? || t == Marker(payload)
    {
      assert t in all;
    }
  }

  lemma ParseEncoded(prefix: MarkerPrefix, payload: seq<Byte>)
    requires TERMINATOR !in payload
    ensures Parse(Scan(prefix), Encode(prefix, payload)) == Parsed([Marker(payload)], [])
  {
    var marker := Encode(prefix, payload);
    var end := |prefix| + |payload|;
    assert marker[..end] == prefix + payload;
    FirstIndexIs(marker, TERMINATOR, end);
    assert marker[|prefix|..end] == payload && marker[end + 1..] == [];
  }

  lemma InsideHeld(prefix: MarkerPrefix, held: seq<Byte>, marker: seq<Byte>, j: nat)
    requires held < prefix && j < |held| && prefix <= marker
    ensures PlainAt(prefix, held + marker, j)
  {
    var k := |held| - j;
    assert (held + marker)[j..][k] == marker[0] == ESC;
    assert prefix[k] == prefix[1..][k - 1];
  }

  // --------------------------------------------------------------------- the loop

  /** The first occurrence of the marker prefix. */
  function FindPrefix(prefix: MarkerPrefix, bs: seq<Byte>): (at: Option<nat>)
    ensures at.Some? ==> at.value <= |bs| && PrefixAt(prefix, bs, at.value) &&
                         forall j :: 0 <= j < at.value ==> !PrefixAt(prefix, bs, j)
    ensures at.None? ==> forall j :: 0 <= j <= |bs| ==> !PrefixAt(prefix, bs, j)
  {
    assert bs[0..] == bs;
    if prefix <= bs then Some(0)
    else if bs == [] then None
    else
      var later := FindPrefix(prefix, bs[1..]);
      assert forall j :: 1 <= j <= |bs| ==> PrefixAt(prefix, bs, j) == PrefixAt(prefix, bs[1..], j - 1) by {
        forall j | 1 <= j <= |bs| ensures PrefixAt(prefix, bs, j) == PrefixAt(prefix, bs[1..], j - 1) {
          assert bs[j..] == bs[1..][j - 1..];
        }
      }
      if later.None? then None else Some(later.value + 1)
  }

  method LongestSuffixOfPrefix(prefix: MarkerPrefix, data: seq<Byte>) returns (keep: nat)
    ensures keep <= |data| && keep < |prefix| && Last(data, keep) <= prefix
    ensures forall n :: keep < n <= |data| && n < |prefix| ==> !(Last(data, n) <= prefix)
  {
    var maxLength := if |data| < |prefix| - 1 then |data| else |prefix| - 1;
    var length := maxLength;
    while length >= 1
      invariant 0 <= length <= maxLength
      invariant forall n :: length < n <= maxLength ==> !(Last(data, n) <= prefix)
    {
      if Last(data, length) == prefix[..length] { return length; }
      length := length - 1;
    }
    return 0;
  }

  /** Pulls complete output and markers out of the accumulator. */
  method Drain<S>(prefix: MarkerPrefix, buffer: seq<Byte>, decode: seq<Byte> -> Option<S>)
    returns (rest: seq<Byte>, output: seq<Byte>, exit: Option<S>)
    ensures rest == Parse(Scan(prefix), buffer).held
    ensures output == Stripped(Parse(Scan(prefix), buffer).tokens)
    ensures exit == LastExit(decode, Parse(Scan(prefix), buffer).tokens)
  {
    rest, output, exit := buffer, [], None;
    ghost var done: seq<Token> := [];
    ghost var all := Parse(Scan(prefix), buffer);
    while rest != []
      invariant Yet(prefix, all, done, rest)
      invariant output == Stripped(done) && exit == LastExit(decode, done)
      decreases |rest|
    {
      var at := FindPrefix(prefix, rest);
      if at.Some? {
        if at.value > 0 {
          TextBeforeMarker(prefix, rest, at.value);
          TakeText(prefix, all, done, rest, at.value);
          done := EmitText(decode, done, rest[..at.value]);
          output, rest := output + rest[..at.value], rest[at.value..];
          continue;
        }
        assert rest[0..] == rest;
        var end := MarkerEnd(prefix, rest);
        if end == |rest| { break; }
        var payload := rest[|prefix|..end];
        TakeMarker(prefix, all, done, rest);
        done := EmitMarker(decode, done, payload);
        if decode(payload).Some? { exit := decode(payload); }
        rest := rest[end + 1..];
        continue;
      }
      var keep := LongestSuffixOfPrefix(prefix, rest);
      var emitCount := |rest| - keep;
      NoMarkerLeft(prefix, rest, keep);
      TakeText(prefix, all, done, rest, emitCount);
      done := EmitText(decode, done, rest[..emitCount]);
      output, rest := output + rest[..emitCount], rest[emitCount..];
      break;
    }
    NothingLeft(prefix, all, done, rest);
  }

  datatype Drained<+S> = Drained(output: seq<Byte>, exit: Option<S>, rest: seq<Byte>)

  /** What one drain makes of an accumulator. */
  function DrainOnce<S>(prefix: MarkerPrefix, decode: seq<Byte> -> Option<S>, buffer: seq<Byte>): Drained<S> {
    var p := Parse(Scan(prefix), buffer);
    Drained(Stripped(p.tokens), LastExit(decode, p.tokens), p.held)
  }

  /** What drains after each chunk amount to: outputs in order, the last exit reported. */
  function DrainChunks<S>(prefix: MarkerPrefix, decode: seq<Byte> -> Option<S>, held: seq<Byte>, chunks: seq<seq<Byte>>): Drained<S>
    decreases |chunks|
  {
    if chunks == [] then Drained([], None, held)
    else
      var now := DrainOnce(prefix, decode, held + chunks[0]);
      var later := DrainChunks(prefix, decode, now.rest, chunks[1..]);
      Drained(now.output + later.output, if later.exit.Some? then later.exit else now.exit, later.rest)
  }

  lemma DrainTwice<S>(prefix: MarkerPrefix, decode: seq<Byte> -> Option<S>, a: seq<Byte>, b: seq<Byte>)
    ensures var now := DrainOnce(prefix, decode, a); var later := DrainOnce(prefix, decode, now.rest + b);
            DrainOnce(prefix, decode, a + b) ==
            Drained(now.output + later.output, if later.exit.Some? then later.exit else now.exit, later.rest)
  {
    ScanIsStable(prefix);
    ParseConcat(Scan(prefix), a, b);
    var now := Parse(Scan(prefix), a);
    var later := Parse(Scan(prefix), now.held + b);
    StrippedConcat(now.tokens, later.tokens);
    LastExitConcat(decode, now.tokens, later.tokens);
  }

  lemma DrainHeld<S>(prefix: MarkerPrefix, decode: seq<Byte> -> Option<S>, bs: seq<Byte>)
    ensures var held := Parse(Scan(prefix), bs).held; DrainOnce(prefix, decode, held) == Drained([], None, held)
  {
    HeldIsHeld(Scan(prefix), bs);
  }

  /** However the stream is cut, draining chunk by chunk gives the output, the exit and the
      held tail of one drain of the whole. */
  lemma {:induction false} DrainIsChunkIndependent<S>(prefix: MarkerPrefix, decode: seq<Byte> -> Option<S>, held: seq<Byte>,
                                                      chunks: seq<seq<Byte>>)
    requires DrainOnce(prefix, decode, held) == Drained([], None, held)
    ensures DrainChunks(prefix, decode, held, chunks) == DrainOnce(prefix, decode, held + Concat(chunks))
    decreases |chunks|
  {
    if chunks == [] {
      Neutral(held);
    } else {
      var first := held + chunks[0];
      DrainHeld(prefix, decode, first);
      DrainIsChunkIndependent(prefix, decode, DrainOnce(prefix, decode, first).rest, chunks[1..]);
      DrainTwice(prefix, decode, first, Concat(chunks[1..]));
      Assoc(held, chunks[0], Concat(chunks[1..]));
    }
  }

  // ---- the drain on bytes ---------------------------------------------------------

  datatype Piece = Piece(text: seq<Byte>, payload: seq<Byte>)

  /** Text, a marker, text, a marker, and so on. */
  function Spelled(prefix: MarkerPrefix, pieces: seq<Piece>): seq<Byte> {
    if pieces == [] then []
    else pieces[0].text + Encode(prefix, pieces[0].payload) + Spelled(prefix, pieces[1..])
  }

  function AllText(pieces: seq<Piece>): seq<Byte> {
    if pieces == [] then [] else pieces[0].text + AllText(pieces[1..])
  }

  ghost predicate Proper(prefix: MarkerPrefix, p: Piece) {
    NoPrefix(prefix, p.text) && TERMINATOR !in p.payload
  }

  /** `e` is what the last decodable payload says, or nothing when none decodes. */
  ghost predicate LastSays<S>(decode: seq<Byte> -> Option<S>, pieces: seq<Piece>, e: Option<S>) {
    if e.None? then forall p | p in pieces :: decode(p.payload).None?
    else exists k :: 0 <= k < |pieces| && decode(pieces[k].payload) == e &&
                     forall i | k < i < |pieces| :: decode(pieces[i].payload).None?
  }

  lemma {:induction false} OnlyText<S>(prefix: MarkerPrefix, decode: seq<Byte> -> Option<S>, tokens: seq<Token>)
    requires forall t | t in tokens :: t.Text?
    ensures Stripped(tokens) == Flatten(Spell(prefix), tokens) && LastExit(decode, tokens) == None
  {
    if tokens != [] {
      assert tokens[0].Text?;
      OnlyText(prefix, decode, tokens[1..]);
    }
  }

  /** Text without a prefix reaches the emulator, but for what may be the start of one. */
  lemma DrainedText<S>(prefix: MarkerPrefix, decode: seq<Byte> -> Option<S>, text: seq<Byte>)
    requires NoPrefix(prefix, text)
    ensures var d := DrainOnce(prefix, decode, text);
            d.exit == None && d.output + d.rest == text && !Open(prefix, d.rest)
  {
    PlainStream(prefix, text);
    ScanLossless(prefix, text);
    OnlyText(prefix, decode, Parse(Scan(prefix), text).tokens);
  }

  lemma DrainedMarker<S>(prefix: MarkerPrefix, decode: seq<Byte> -> Option<S>, p: Piece)
    requires Proper(prefix, p)
    ensures DrainOnce(prefix, decode, p.text + Encode(prefix, p.payload)) == Drained(p.text, decode(p.payload), [])
  {
    DrainedText(prefix, decode, p.text);
    AppendedMarker(prefix, p.text, p.payload);
    var was := Parse(Scan(prefix), p.text);
    var texts, marker := Texts(was.held), [Marker(p.payload)];
    StrippedTexts(was.held);
    LastExitTexts(decode, was.held);
    assert marker[1..] == [];
    StrippedConcat(texts, marker);
    StrippedConcat(was.tokens, texts + marker);
    LastExitConcat(decode, texts, marker);
    LastExitConcat(decode, was.tokens, texts + marker);
    Neutral(was.held);
  }

  /** A stream of text and markers, ending in text: the text comes out, the exit reported is
      the last that decodes, and no marker is left. */
  lemma {:induction false} DrainedStream<S>(prefix: MarkerPrefix, decode: seq<Byte> -> Option<S>, pieces: seq<Piece>, tail: seq<Byte>)
    requires NoPrefix(prefix, tail) && forall p | p in pieces :: Proper(prefix, p)
    ensures var d := DrainOnce(prefix, decode, Spelled(prefix, pieces) + tail);
            d.output + d.rest == AllText(pieces) + tail && LastSays(decode, pieces, d.exit) && !Open(prefix, d.rest)
  {
    DrainedText(prefix, decode, tail);
    if pieces == [] {
      Neutral(tail);
    } else {
      var first, rest := pieces[0].text + Encode(prefix, pieces[0].payload), Spelled(prefix, pieces[1..]);
      DrainedStream(prefix, decode, pieces[1..], tail);
      DrainedMarker(prefix, decode, pieces[0]);
      DrainTwice(prefix, decode, first, rest + tail);
      Neutral(rest + tail);
      Assoc(first, rest, tail);
      var later := DrainOnce(prefix, decode, rest + tail);
      Assoc(pieces[0].text, later.output, later.rest);
      Assoc(pieces[0].text, AllText(pieces[1..]), tail);
      LastOfMore(decode, pieces, later.exit);
    }
  }

  lemma LastOfMore<S>(decode: seq<Byte> -> Option<S>, pieces: seq<Piece>, later: Option<S>)
    requires pieces != [] && LastSays(decode, pieces[1..], later)
    ensures LastSays(decode, pieces, if later.Some? then later else decode(pieces[0].payload))
  {
    var rest := pieces[1..];
    if later.Some? {
      var k :| 0 <= k < |rest| && decode(rest[k].payload) == later &&
               forall i | k < i < |rest| :: decode(rest[i].payload).None?;
      forall i | k + 1 < i < |pieces|
        ensures decode(pieces[i].payload).None?
      {
        assert pieces[i] == rest[i - 1];
      }
      assert decode(pieces[k + 1].payload) == later;
    } else {
      forall i | 0 < i < |pieces|
        ensures decode(pieces[i].payload).None?
      {
        assert pieces[i] == rest[i - 1] && rest[i - 1] in rest;
      }
    }
  }

  /** The tokens taken so far, and the reading of what is left, make up the whole. */
  ghost predicate Yet(prefix: MarkerPrefix, all: Parsed<Token>, done: seq<Token>, rest: seq<Byte>) {
    var left := Parse(Scan(prefix), rest);
    all == Parsed(done + left.tokens, left.held)
  }

  lemma TakeText(prefix: MarkerPrefix, all: Parsed<Token>, done: seq<Token>, rest: seq<Byte>, n: nat)
    requires n <= |rest| && Yet(prefix, all, done, rest)
    requires forall j :: 0 <= j < n ==> PlainAt(prefix, rest, j)
    ensures Yet(prefix, all, done + Texts(rest[..n]), rest[n..])
  {
    ParseText(prefix, rest, n);
    var left := Parse(Scan(prefix), rest[n..]);
    Assoc(done, Texts(rest[..n]), left.tokens);
  }

  lemma TakeMarker(prefix: MarkerPrefix, all: Parsed<Token>, done: seq<Token>, rest: seq<Byte>)
    requires prefix <= rest && MarkerEnd(prefix, rest) < |rest| && Yet(prefix, all, done, rest)
    ensures var end := MarkerEnd(prefix, rest);
            Yet(prefix, all, done + [Marker(rest[|prefix|..end])], rest[end + 1..])
  {
    var end := MarkerEnd(prefix, rest);
    var left := Parse(Scan(prefix), rest[end + 1..]);
    var m := Marker(rest[|prefix|..end]);
    Assoc(done, [m], left.tokens);
  }

  lemma NothingLeft(prefix: MarkerPrefix, all: Parsed<Token>, done: seq<Token>, rest: seq<Byte>)
    requires Yet(prefix, all, done, rest) && ScanFront(prefix, rest).More?
    ensures all == Parsed(done, rest)
  {
    Neutral(done);
  }

  lemma EmitText<S>(decode: seq<Byte> -> Option<S>, done: seq<Token>, text: seq<Byte>)
    returns (more: seq<Token>)
    ensures more == done + Texts(text)
    ensures Stripped(more) == Stripped(done) + text
    ensures LastExit(decode, more) == LastExit(decode, done)
  {
    more := done + Texts(text);
    StrippedTexts(text);
    StrippedConcat(done, Texts(text));
    LastExitTexts(decode, text);
    LastExitConcat(decode, done, Texts(text));
  }

  lemma EmitMarker<S>(decode: seq<Byte> -> Option<S>, done: seq<Token>, payload: seq<Byte>)
    returns (more: seq<Token>)
    ensures more == done + [Marker(payload)]
    ensures Stripped(more) == Stripped(done)
    ensures LastExit(decode, more) ==
            if decode(payload).Some? then decode(payload) else LastExit(decode, done)
  {
    more := done + [Marker(payload)];
    StrippedConcat(done, [Marker(payload)]);
    LastExitConcat(decode, done, [Marker(payload)]);
  }

  lemma TextBeforeMarker(prefix: MarkerPrefix, bs: seq<Byte>, at: nat)
    requires at <= |bs| && PrefixAt(prefix, bs, at)
    requires forall j :: 0 <= j < at ==> !PrefixAt(prefix, bs, j)
    ensures forall j :: 0 <= j < at ==> PlainAt(prefix, bs, j)
  {
  }

  lemma NoMarkerLeft(prefix: MarkerPrefix, bs: seq<Byte>, keep: nat)
    requires keep <= |bs| && keep < |prefix| && Last(bs, keep) <= prefix
    requires forall j :: 0 <= j <= |bs| ==> !PrefixAt(prefix, bs, j)
    requires forall n :: keep < n <= |bs| && n < |prefix| ==> !(Last(bs, n) <= prefix)
    ensures forall j :: 0 <= j < |bs| - keep ==> PlainAt(prefix, bs, j)
    ensures ScanFront(prefix, Last(bs, keep)).More?
  {
    forall j | 0 <= j < |bs| - keep
      ensures PlainAt(prefix, bs, j)
    {
      assert !PrefixAt(prefix, bs, j);
      assert Last(bs, |bs| - j) == bs[j..];
    }
  }
}
