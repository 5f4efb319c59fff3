/**
 The filter in front of the headless emulator. It removes DEC mode 2026 (synchronized
 output) from the set/reset mode sequences it occurs in, and passes everything else
 through byte for byte. Control sequences follow ECMA-48, section 5.4: ESC [ , a body,
 a final byte between 0x40 and 0x7E.
*/
module InputFilter {
  import opened Bytes
  import opened Streaming

  const BRACKET: Byte := 0x5B
  const QUESTION: Byte := 0x3F
  const SEMICOLON: Byte := 0x3B
  const SET_MODE: Byte := 0x68
  const RESET_MODE: Byte := 0x6C
  const CSI: seq<Byte> := [ESC, BRACKET]
  /** The mode number 2026, as written. */
  const SYNC: seq<Byte> := [0x32, 0x30, 0x32, 0x36]
  /** The longest body that is still waited for. */
  const LIMIT: nat := 1024

  datatype Token = Plain(byte: Byte) | Sequence(body: seq<Byte>) | Overlong(body: seq<Byte>)

  predicate IsFinal(b: Byte) {
    0x40 <= b <= 0x7E
  }

  predicate NoFinal(bs: seq<Byte>) {
    forall b :: b in bs ==> !IsFinal(b)
  }

  function FirstFinal(bs: seq<Byte>): (i: nat)
    ensures i <= |bs| && NoFinal(bs[..i]) && (i < |bs| ==> IsFinal(bs[i]))
  {
    if bs == [] || IsFinal(bs[0]) then 0 else 1 + FirstFinal(bs[1..])
  }

  lemma {:induction false} FirstFinalIs(bs: seq<Byte>, i: nat)
    requires i <= |bs| && NoFinal(bs[..i]) && (i < |bs| ==> IsFinal(bs[i]))
    ensures FirstFinal(bs) == i
  {
    if i > 0 {
      assert bs[0] in bs[..i];
      assert bs[1..][..i - 1] == bs[..i][1..];
      FirstFinalIs(bs[1..], i - 1);
    }
  }

  lemma {:induction false} FirstFinalBeyond(bs: seq<Byte>, n: nat)
    requires n <= |bs| && NoFinal(bs[..n])
    ensures n <= FirstFinal(bs)
  {
    if n > 0 {
      assert bs[0] in bs[..n];
      assert bs[1..][..n - 1] == bs[..n][1..];
      FirstFinalBeyond(bs[1..], n - 1);
    }
  }

  // ------------------------------------------------------------- the stream's tokens

  function SequenceFront(body: seq<Byte>): Front<Token> {
    var k := FirstFinal(body);
    if k < |body| && k <= LIMIT then Item(Sequence(body[..k + 1]), k + 3)
    else if |body| > LIMIT then Item(Overlong(body[..LIMIT + 1]), LIMIT + 3)
    else More
  }

  function FilterFront(bs: seq<Byte>): Front<Token> {
    if bs == [] || bs == [ESC] then More
    else if bs[0] != ESC || bs[1] != BRACKET then Item(Plain(bs[0]), 1)
    else SequenceFront(bs[2..])
  }

  function Tokens(): Reader<Token> {
    bs => FilterFront(bs)
  }

  function Spell(): Token -> seq<Byte> {
    (t: Token) => match t case Plain(b) => [b] case Sequence(s) => CSI + s case Overlong(s) => CSI + s
  }

  /** What a token becomes: only complete sequences are ever rewritten. */
  function Emitted(): Token -> seq<Byte> {
    (t: Token) => match t case Plain(b) => [b] case Sequence(s) => Rewrite(s) case Overlong(s) => CSI + s
  }

  lemma SequenceFrontStable(a: seq<Byte>, b: seq<Byte>)
    requires SequenceFront(a).Item?
    ensures SequenceFront(a + b) == SequenceFront(a)
  {
    var k := FirstFinal(a);
    if k < |a| {
      assert (a + b)[..k] == a[..k] && (a + b)[..k + 1] == a[..k + 1];
      FirstFinalIs(a + b, k);
    } else {
      assert (a + b)[..k] == a[..k];
      FirstFinalBeyond(a + b, k);
    }
    if |a| > LIMIT {
      assert (a + b)[..LIMIT + 1] == a[..LIMIT + 1];
    }
  }

  /** A token already complete stays so: hence filtering cannot depend on how the
      stream is cut (see Streaming.ChunkingIsInvisible). */
  lemma TokensAreStable()
    ensures Stable(Tokens())
  {
    forall a, b | Takes(Tokens()(a), a)
      ensures Tokens()(a + b) == Tokens()(a)
    {
      if |a| > 1 && a[0] == ESC && a[1] == BRACKET {
        SequenceFrontStable(a[2..], b);
        assert (a + b)[2..] == a[2..] + b;
      }
    }
  }

  // ------------------------------------------------------------- mode sequences

  predicate IsDigit(b: Byte) {
    0x30 <= b <= 0x39
  }

  predicate Numeric(p: seq<Byte>) {
    p != [] && forall b :: b in p ==> IsDigit(b)
  }

  predicate AllNumeric(ps: seq<seq<Byte>>) {
    forall p :: p in ps ==> Numeric(p)
  }

  function Split(bs: seq<Byte>): (ps: seq<seq<Byte>>)
    ensures ps != []
  {
    var i := FirstIndex(bs, SEMICOLON);
    if i == |bs| then [bs] else [bs[..i]] + Split(bs[i + 1..])
  }

  function Join(ps: seq<seq<Byte>>): seq<Byte> {
    if ps == [] then []
    else if |ps| == 1 then ps[0]
    else ps[0] + [SEMICOLON] + Join(ps[1..])
  }

  function Without(ps: seq<seq<Byte>>, p: seq<Byte>): (kept: seq<seq<Byte>>)
    ensures forall q :: q in kept <==> q in ps && q != p
  {
    if ps == [] then []
    else if ps[0] == p then Without(ps[1..], p)
    else [ps[0]] + Without(ps[1..], p)
  }

  /** `ESC [ ? p1 ; ... ; pn h` or `l`. */
  function ModeBody(ps: seq<seq<Byte>>, final: Byte): seq<Byte> {
    [QUESTION] + Join(ps) + [final]
  }

  /** A set-mode or reset-mode sequence of private parameters. */
  predicate IsMode(body: seq<Byte>) {
    |body| > 1 && body[0] == QUESTION && (body[|body| - 1] == SET_MODE || body[|body| - 1] == RESET_MODE)
  }

  function ModeText(body: seq<Byte>): seq<Byte>
    requires IsMode(body)
  {
    body[1..|body| - 1]
  }

  predicate Altered(body: seq<Byte>) {
    IsMode(body) &&
    var ps := Split(ModeText(body));
    (forall b :: b in ModeText(body) ==> b < 0x80) && AllNumeric(ps) && SYNC in ps
  }

  /** The bytes sent on for a complete control sequence with this body. */
  function Rewrite(body: seq<Byte>): seq<Byte> {
    if !Altered(body) then CSI + body
    else
      var kept := Without(Split(ModeText(body)), SYNC);
      if kept == [] then [] else CSI + ModeBody(kept, body[|body| - 1])
  }

  lemma {:induction false} JoinSplit(bs: seq<Byte>)
    ensures Join(Split(bs)) == bs
    decreases |bs|
  {
    var i := FirstIndex(bs, SEMICOLON);
    if i < |bs| {
      JoinSplit(bs[i + 1..]);
      assert Split(bs)[1..] == Split(bs[i + 1..]);
      assert bs == bs[..i] + [SEMICOLON] + bs[i + 1..];
    }
  }

  lemma {:induction false} SplitJoin(ps: seq<seq<Byte>>)
    requires ps != [] && AllNumeric(ps)
    ensures Split(Join(ps)) == ps
  {
    assert SEMICOLON !in ps[0] by { assert ps[0] in ps && !IsDigit(SEMICOLON); }
    if |ps| == 1 {
      NotFound(ps[0], SEMICOLON);
    } else {
      assert forall p :: p in ps[1..] ==> p in ps;
      SplitJoin(ps[1..]);
      SplitStep(ps[0], Join(ps[1..]));
      assert ps == [ps[0]] + ps[1..];
    }
  }

  lemma SplitStep(p: seq<Byte>, rest: seq<Byte>)
    requires SEMICOLON !in p
    ensures Split(p + [SEMICOLON] + rest) == [p] + Split(rest)
  {
    var bs := p + [SEMICOLON] + rest;
    assert bs[..|p|] == p && bs[|p| + 1..] == rest;
    FirstIndexIs(bs, SEMICOLON, |p|);
  }

  lemma {:induction false} NotFound(bs: seq<Byte>, x: Byte)
    requires x !in bs
    ensures FirstIndex(bs, x) == |bs|
  {
    if bs != [] {
      assert forall b :: b in bs[1..] ==> b in bs;
      NotFound(bs[1..], x);
    }
  }

  lemma {:induction false} JoinNumericIsAscii(ps: seq<seq<Byte>>)
    requires AllNumeric(ps)
    ensures forall b :: b in Join(ps) ==> b < 0x80
  {
    if ps != [] {
      assert ps[0] in ps;
      assert forall p :: p in ps[1..] ==> p in ps;
      JoinNumericIsAscii(ps[1..]);
    }
  }

  /** A numeric mode sequence keeps its other modes in order, loses every 2026, and
      vanishes when nothing is left. */
  lemma RewriteModes(ps: seq<seq<Byte>>, final: Byte)
    requires ps != [] && AllNumeric(ps) && (final == SET_MODE || final == RESET_MODE)
    ensures Rewrite(ModeBody(ps, final)) ==
            if SYNC !in ps then CSI + ModeBody(ps, final)
            else if Without(ps, SYNC) == [] then []
            else CSI + ModeBody(Without(ps, SYNC), final)
  {
    var body := ModeBody(ps, final);
    assert ModeText(body) == Join(ps);
    SplitJoin(ps);
    JoinNumericIsAscii(ps);
  }

  /** A numeric mode sequence with 2026 among its modes. */
  ghost predicate SyncMode(body: seq<Byte>, ps: seq<seq<Byte>>, final: Byte) {
    ps != [] && AllNumeric(ps) && SYNC in ps && (final == SET_MODE || final == RESET_MODE) &&
    body == ModeBody(ps, final)
  }

  /** A control sequence is altered exactly when it is such a sequence. */
  lemma RewriteAlters(body: seq<Byte>)
    ensures Rewrite(body) != CSI + body <==> exists ps, final :: SyncMode(body, ps, final)
  {
    if Altered(body) {
      AlteredIsSync(body);
    }
    if ps, final :| SyncMode(body, ps, final) {
      RewriteModes(ps, final);
      WithoutShortens(ps);
      ModeLength(ps, final);
      ModeLength(Without(ps, SYNC), final);
    }
  }

  lemma AlteredIsSync(body: seq<Byte>)
    requires Altered(body)
    ensures SyncMode(body, Split(ModeText(body)), body[|body| - 1])
  {
    JoinSplit(ModeText(body));
    ModeParts(body);
  }

  lemma ModeParts(body: seq<Byte>)
    requires IsMode(body)
    ensures body == [QUESTION] + ModeText(body) + [body[|body| - 1]]
  {
  }

  lemma ModeLength(ps: seq<seq<Byte>>, final: Byte)
    ensures |CSI + ModeBody(ps, final)| == 4 + |Join(ps)|
  {
  }

  lemma {:induction false} WithoutShortens(ps: seq<seq<Byte>>)
    requires AllNumeric(ps)
    ensures |Join(Without(ps, SYNC))| <= |Join(ps)|
    ensures SYNC in ps ==> |Join(Without(ps, SYNC))| < |Join(ps)|
  {
    if ps != [] {
      assert forall p :: p in ps[1..] ==> p in ps;
      WithoutShortens(ps[1..]);
      assert ps[0] in ps;
      if ps[0] != SYNC {
        assert Without(ps, SYNC)[1..] == Without(ps[1..], SYNC);
      }
    }
  }

  // ------------------------------------------------------------- nothing is added

  lemma {:induction false} JoinWithout(ps: seq<seq<Byte>>)
    ensures Subsequence(Join(Without(ps, SYNC)), Join(ps))
  {
    if ps != [] {
      JoinWithout(ps[1..]);
      var kept := Without(ps[1..], SYNC);
      var lead := if |ps| == 1 then ps[0] else ps[0] + [SEMICOLON];
      assert Join(ps) == lead + Join(ps[1..]);
      if ps[0] == SYNC {
        SubsequenceConcat([], lead, Join(kept), Join(ps[1..]));
        assert [] + Join(kept) == Join(kept);
      } else if kept == [] {
        SubsequenceRefl(ps[0]);
        SubsequenceConcat(ps[0], ps[0], [], Join(ps)[|ps[0]|..]);
        assert ps[0] + [] == ps[0] && ps[0] + Join(ps)[|ps[0]|..] == Join(ps);
        assert Without(ps, SYNC) == [ps[0]];
      } else {
        SubsequenceRefl(lead);
        SubsequenceConcat(lead, lead, Join(kept), Join(ps[1..]));
        assert Without(ps, SYNC)[1..] == kept && |ps| > 1;
      }
    }
  }

  lemma RewriteDeletes(body: seq<Byte>)
    ensures Subsequence(Rewrite(body), CSI + body)
  {
    SubsequenceRefl(CSI + body);
    if Altered(body) {
      AlteredIsSync(body);
      var ps, final := Split(ModeText(body)), body[|body| - 1];
      RewriteModes(ps, final);
      JoinWithout(ps);
      BodyDeletes(Join(Without(ps, SYNC)), Join(ps), final);
    }
  }

  lemma BodyDeletes(small: seq<Byte>, large: seq<Byte>, final: Byte)
    requires Subsequence(small, large)
    ensures Subsequence(CSI + ([QUESTION] + small + [final]), CSI + ([QUESTION] + large + [final]))
  {
    SubsequenceRefl(CSI);
    SubsequenceRefl([QUESTION]);
    SubsequenceRefl([final]);
    SubsequenceConcat([QUESTION], [QUESTION], small, large);
    SubsequenceConcat([QUESTION] + small, [QUESTION] + large, [final], [final]);
    SubsequenceConcat(CSI, CSI, [QUESTION] + small + [final], [QUESTION] + large + [final]);
  }

  lemma {:induction false} EmittedDeletes(tokens: seq<Token>)
    ensures Subsequence(Flatten(Emitted(), tokens), Flatten(Spell(), tokens))
  {
    if tokens != [] {
      EmittedDeletes(tokens[1..]);
      var t := tokens[0];
      if t.Sequence? {
        RewriteDeletes(t.body);
      } else {
        SubsequenceRefl(Spell()(t));
      }
      SubsequenceConcat(Emitted()(t), Spell()(t), Flatten(Emitted(), tokens[1..]), Flatten(Spell(), tokens[1..]));
    }
  }

  /** The filter only ever deletes: its output so far, followed by what it still holds,
      is a subsequence of its input. */
  lemma FilterDeletes(bs: seq<Byte>)
    ensures var p := Parse(Tokens(), bs);
            Subsequence(Flatten(Emitted(), p.tokens) + p.held, bs)
  {
    forall a | Takes(Tokens()(a), a)
      ensures Spell()(Tokens()(a).token) == a[..Tokens()(a).width]
    {
      if |a| > 1 && a[0] == ESC && a[1] == BRACKET {
        assert a[..Tokens()(a).width] == CSI + a[2..Tokens()(a).width];
      }
    }
    ParseLossless(Tokens(), Spell(), bs);
    var p := Parse(Tokens(), bs);
    EmittedDeletes(p.tokens);
    SubsequenceRefl(p.held);
    SubsequenceConcat(Flatten(Emitted(), p.tokens), Flatten(Spell(), p.tokens), p.held, p.held);
  }

  /** What the filter sends on for each chunk in turn, carrying its undecided tail. */
  function FilterChunks(held: seq<Byte>, chunks: seq<seq<Byte>>): seq<Byte>
    decreases |chunks|
  {
    if chunks == [] then []
    else
      var now := Parse(Tokens(), held + chunks[0]);
      Flatten(Emitted(), now.tokens) + FilterChunks(now.held, chunks[1..])
  }

  lemma {:induction false} FilterChunksParsed(held: seq<Byte>, chunks: seq<seq<Byte>>)
    ensures FilterChunks(held, chunks) == Flatten(Emitted(), ParseChunks(Tokens(), held, chunks).tokens)
    decreases |chunks|
  {
    if chunks != [] {
      var now := Parse(Tokens(), held + chunks[0]);
      FilterChunksParsed(now.held, chunks[1..]);
      FlattenConcat(Emitted(), now.tokens, ParseChunks(Tokens(), now.held, chunks[1..]).tokens);
    }
  }

  /** However the stream is cut, the filter's output is the rewriting of the whole stream,
      token by token. */
  lemma FilterIsChunkIndependent(chunks: seq<seq<Byte>>)
    ensures FilterChunks([], chunks) == Flatten(Emitted(), Parse(Tokens(), Concat(chunks)).tokens)
  {
    FilterChunksParsed([], chunks);
    TokensAreStable();
    ChunkingIsInvisible(Tokens(), [], chunks);
    Neutral(Concat(chunks));
  }

  // ------------------------------------------------------------- the filter

  datatype State = Text | Escape | Csi

  class HeadlessTerminalInputFilter {
    var state: State
    var csiBody: seq<Byte>

    ghost predicate Valid()
      reads this
    {
      state == Csi ==> |csiBody| <= LIMIT && NoFinal(csiBody)
    }

    /** The input bytes not yet decided. */
    ghost function Held(): seq<Byte>
      reads this
    {
      match state
      case Text => []
      case Escape => [ESC]
      case Csi => CSI + csiBody
    }

    constructor ()
      ensures Valid() && Held() == []
    {
      state, csiBody := Text, [];
    }

    method Filter(data: seq<Byte>) returns (output: seq<Byte>)
      requires Valid()
      modifies this
      ensures Valid()
      ensures output == Flatten(Emitted(), Parse(Tokens(), old(Held()) + data).tokens)
      ensures Held() == Parse(Tokens(), old(Held()) + data).held
    {
      output := [];
      var index := 0;
      ghost var all := Parse(Tokens(), Held() + data);
      ghost var done: seq<Token> := [];
      Start(Held(), data);
      while index < |data|
        invariant 0 <= index <= |data| && Valid()
        invariant Yet(all, done, Held() + data[index..])
        invariant output == Flatten(Emitted(), done)
        decreases |data| - index, if state == Escape then 1 else 0
      {
        var more: seq<Byte>;
        match state {
          case Text =>
            more, index, done := TakeText(data, index, all, done);
          case Escape =>
            more, index, done := TakeEscaped(data, index, all, done);
          case Csi =>
            more, done := TakeBodyByte(data, index, all, done);
            index := index + 1;
        }
        output := output + more;
      }
      NothingLeft(all, done, data);
    }

    /** The whole run up to the next ESC. */
    static method RunEnd(data: seq<Byte>, index: nat) returns (end: nat)
      requires index <= |data|
      ensures index <= end <= |data| && ESC !in data[index..end]
      ensures end < |data| ==> data[end] == ESC
    {
      end := index;
      while end < |data| && data[end] != ESC
        invariant index <= end <= |data| && ESC !in data[index..end]
      {
        assert data[index..end + 1] == data[index..end] + [data[end]];
        end := end + 1;
      }
    }

    /** The whole run up to the next ESC, in one append. */
    method TakeText(data: seq<Byte>, index: nat, ghost all: Parsed<Token>, ghost done: seq<Token>)
      returns (output: seq<Byte>, next: nat, ghost more: seq<Token>)
      requires index < |data| && Valid() && state == Text && Yet(all, done, Held() + data[index..])
      modifies this
      ensures Valid() && index < next <= |data|
      ensures Yet(all, more, Held() + data[next..])
      ensures Flatten(Emitted(), more) == Flatten(Emitted(), done) + output
    {
      var end := RunEnd(data, index);
      Neutral(data[index..]);
      more := PlainRun(all, done, data, index, end);
      output := data[index..end];
      if end < |data| {
        FirstByte(data, end);
        state := Escape;
        next := end + 1;
      } else {
        Neutral(data[end..]);
        next := end;
      }
    }

    /** After ESC: `[` opens a control sequence, anything else is read again as text. */
    method TakeEscaped(data: seq<Byte>, index: nat, ghost all: Parsed<Token>, ghost done: seq<Token>)
      returns (output: seq<Byte>, next: nat, ghost more: seq<Token>)
      requires index < |data| && Valid() && state == Escape && Yet(all, done, Held() + data[index..])
      modifies this
      ensures Valid() && index <= next <= |data| && (index < next || state == Text)
      ensures Yet(all, more, Held() + data[next..])
      ensures Flatten(Emitted(), more) == Flatten(Emitted(), done) + output
    {
      if data[index] == BRACKET {
        FirstByte(data, index);
        EscapeBracket(data[index + 1..]);
        state, csiBody := Csi, [];
        output, next, more := [], index + 1, done;
      } else {
        more := EscapeAlone(all, done, data[index..]);
        output, next := [ESC], index;
        state := Text;
      }
    }

    /** One byte of a control sequence's body. */
    method TakeBodyByte(data: seq<Byte>, index: nat, ghost all: Parsed<Token>, ghost done: seq<Token>)
      returns (output: seq<Byte>, ghost more: seq<Token>)
      requires index < |data| && Valid() && state == Csi && Yet(all, done, Held() + data[index..])
      modifies this
      ensures Valid()
      ensures Yet(all, more, Held() + data[index + 1..])
      ensures Flatten(Emitted(), more) == Flatten(Emitted(), done) + output
    {
      output, more := [], done;
      var byte := data[index];
      FirstByte(data, index);
      BodyGrows(csiBody, byte, data[index + 1..]);
      csiBody := csiBody + [byte];
      if IsFinal(byte) {
        more := BodyEnds(all, done, csiBody, data[index + 1..]);
        output := Rewrite(csiBody);
        state := Text;
      } else if |csiBody| > LIMIT {
        more := BodyOverflows(all, done, csiBody, data[index + 1..]);
        output := CSI + csiBody;
        state := Text;
      }
    }

    lemma NothingLeft(all: Parsed<Token>, done: seq<Token>, data: seq<Byte>)
      requires Valid() && Yet(all, done, Held() + data[|data|..])
      ensures all == Parsed(done, Held())
    {
      assert Held() + data[|data|..] == Held();
      if state == Csi {
        assert Held()[2..] == csiBody && csiBody[..|csiBody|] == csiBody;
        FirstFinalIs(csiBody, |csiBody|);
      }
      assert Tokens()(Held()) == More;
      assert done + [] == done;
    }
  }

  lemma Start(held: seq<Byte>, data: seq<Byte>)
    ensures Yet(Parse(Tokens(), held + data), [], held + data[0..])
  {
    assert data[0..] == data;
    var all := Parse(Tokens(), held + data);
    assert [] + all.tokens == all.tokens;
  }

  lemma EscapeBracket(tail: seq<Byte>)
    ensures [ESC] + ([BRACKET] + tail) == CSI + [] + tail
  {
  }

  lemma EscapeAlone(all: Parsed<Token>, done: seq<Token>, rest: seq<Byte>) returns (more: seq<Token>)
    requires rest != [] && rest[0] != BRACKET && Yet(all, done, [ESC] + rest)
    ensures Yet(all, more, [] + rest)
    ensures Flatten(Emitted(), more) == Flatten(Emitted(), done) + [ESC]
  {
    more := One(all, done, [ESC] + rest);
    assert ([ESC] + rest)[1..] == rest == [] + rest;
  }

  /** The tokens taken so far, and the reading of what is left, make up the whole. */
  ghost predicate Yet(all: Parsed<Token>, done: seq<Token>, rest: seq<Byte>) {
    var left := Parse(Tokens(), rest);
    all == Parsed(done + left.tokens, left.held)
  }

  lemma One(all: Parsed<Token>, done: seq<Token>, rest: seq<Byte>) returns (more: seq<Token>)
    requires Yet(all, done, rest) && Takes(FilterFront(rest), rest)
    ensures more == done + [FilterFront(rest).token] && Yet(all, more, rest[FilterFront(rest).width..])
    ensures Flatten(Emitted(), more) == Flatten(Emitted(), done) + Emitted()(FilterFront(rest).token)
  {
    var front := FilterFront(rest);
    assert Tokens()(rest) == front;
    more := done + [front.token];
    var left := Parse(Tokens(), rest[front.width..]);
    assert done + ([front.token] + left.tokens) == more + left.tokens;
    FlattenConcat(Emitted(), done, [front.token]);
  }

  /** A run of text, taken at once, is the same as its bytes taken one at a time. */
  lemma {:induction false} PlainRun(all: Parsed<Token>, done: seq<Token>, data: seq<Byte>, index: nat, end: nat)
    returns (more: seq<Token>)
    requires index <= end <= |data| && ESC !in data[index..end] && Yet(all, done, data[index..])
    ensures Yet(all, more, data[end..])
    ensures Flatten(Emitted(), more) == Flatten(Emitted(), done) + data[index..end]
    decreases end - index
  {
    if index == end {
      more := done;
      Neutral(Flatten(Emitted(), done));
    } else {
      RunStep(data, index, end);
      var first := One(all, done, data[index..]);
      more := PlainRun(all, first, data, index + 1, end);
      Assoc(Flatten(Emitted(), done), [data[index]], data[index + 1..end]);
    }
  }

  lemma RunStep(data: seq<Byte>, index: nat, end: nat)
    requires index < end <= |data| && ESC !in data[index..end]
    ensures FilterFront(data[index..]) == Item(Plain(data[index]), 1)
    ensures ESC !in data[index + 1..end] && data[index..][1..] == data[index + 1..]
    ensures [data[index]] + data[index + 1..end] == data[index..end]
  {
    assert data[index..end][0] == data[index..][0] == data[index];
    assert data[index + 1..end] == data[index..end][1..];
  }

  lemma FirstByte(data: seq<Byte>, index: nat)
    requires index < |data|
    ensures data[index..] == [data[index]] + data[index + 1..]
  {
  }

  lemma BodyGrows(body: seq<Byte>, byte: Byte, tail: seq<Byte>)
    ensures CSI + body + ([byte] + tail) == CSI + (body + [byte]) + tail
    ensures NoFinal(body) && !IsFinal(byte) ==> NoFinal(body + [byte])
  {
  }

  /** A body ends with its first final byte. */
  lemma BodyEnds(all: Parsed<Token>, done: seq<Token>, body: seq<Byte>, tail: seq<Byte>)
    returns (more: seq<Token>)
    requires 0 < |body| <= LIMIT + 1 && NoFinal(body[..|body| - 1]) && IsFinal(body[|body| - 1])
    requires Yet(all, done, CSI + body + tail)
    ensures Yet(all, more, [] + tail)
    ensures Flatten(Emitted(), more) == Flatten(Emitted(), done) + Rewrite(body)
  {
    FrontBody(body, tail);
    BodyItself(body, tail);
    FirstFinalIs(body + tail, |body| - 1);
    more := One(all, done, CSI + body + tail);
  }

  lemma BodyOverflows(all: Parsed<Token>, done: seq<Token>, body: seq<Byte>, tail: seq<Byte>)
    returns (more: seq<Token>)
    requires |body| == LIMIT + 1 && NoFinal(body)
    requires Yet(all, done, CSI + body + tail)
    ensures Yet(all, more, [] + tail)
    ensures Flatten(Emitted(), more) == Flatten(Emitted(), done) + (CSI + body)
  {
    FrontBody(body, tail);
    BodyItself(body, tail);
    FirstFinalBeyond(body + tail, |body|);
    more := One(all, done, CSI + body + tail);
  }

  lemma FrontBody(body: seq<Byte>, tail: seq<Byte>)
    ensures FilterFront(CSI + body + tail) == SequenceFront(body + tail)
    ensures (CSI + body + tail)[2 + |body|..] == [] + tail
  {
    assert (CSI + body + tail)[2..] == body + tail;
  }

  lemma BodyItself(body: seq<Byte>, tail: seq<Byte>)
    ensures (body + tail)[..|body|] == body
    ensures body != [] ==> (body + tail)[..|body| - 1] == body[..|body| - 1]
  {
  }

  const SYNC_BODY: seq<Byte> := [QUESTION] + SYNC + [SET_MODE]

  lemma SyncIsDropped()
    ensures Altered(SYNC_BODY) && Rewrite(SYNC_BODY) == []
  {
    var text := ModeText(SYNC_BODY);
    assert text == SYNC;
    assert forall i | 0 <= i < 4 :: SYNC[i] != SEMICOLON;
    NotFound(SYNC, SEMICOLON);
    assert Split(text) == [SYNC];
    assert Without([SYNC], SYNC) == [] by {
      assert [SYNC][1..] == [];
    }
  }

  lemma NothingMore(all: Parsed<Token>, done: seq<Token>)
    requires Yet(all, done, [])
    ensures all.tokens == done
  {
    Neutral(done);
  }

  lemma PlainRest(all: Parsed<Token>, done: seq<Token>, tail: seq<Byte>)
    requires ESC !in tail && Yet(all, done, tail)
    ensures Flatten(Emitted(), all.tokens) == Flatten(Emitted(), done) + tail
  {
    assert tail[0..] == tail == tail[0..|tail|] && tail[|tail|..] == [];
    var more := PlainRun(all, done, tail, 0, |tail|);
    NothingMore(all, more);
  }

  lemma EscapeFirst(all: Parsed<Token>, rest: seq<Byte>) returns (one: seq<Token>)
    requires Yet(all, [], [ESC] + rest) && rest != [] && rest[0] == ESC
    ensures Yet(all, one, rest) && Flatten(Emitted(), one) == [ESC]
  {
    one := EscapeAlone(all, [], rest);
    Neutral(rest);
  }

  lemma SequenceFirst(all: Parsed<Token>, done: seq<Token>, body: seq<Byte>, tail: seq<Byte>) returns (more: seq<Token>)
    requires 0 < |body| <= LIMIT + 1 && NoFinal(body[..|body| - 1]) && IsFinal(body[|body| - 1])
    requires Yet(all, done, CSI + body + tail)
    ensures Yet(all, more, tail) && Flatten(Emitted(), more) == Flatten(Emitted(), done) + Rewrite(body)
  {
    more := BodyEnds(all, done, body, tail);
    Neutral(tail);
  }

  /** An ESC, a control sequence, plain text: each is decided on its own. */
  lemma EachOnItsOwn(body: seq<Byte>, tail: seq<Byte>)
    requires 0 < |body| <= LIMIT + 1 && NoFinal(body[..|body| - 1]) && IsFinal(body[|body| - 1]) && ESC !in tail
    ensures Flatten(Emitted(), Parse(Tokens(), [ESC] + (CSI + body + tail)).tokens) == [ESC] + Rewrite(body) + tail
  {
    var middle := CSI + body + tail;
    assert middle[0] == ESC;
    var all := Parse(Tokens(), [ESC] + middle);
    Neutral(all.tokens);
    var one := EscapeFirst(all, middle);
    var two := SequenceFirst(all, one, body, tail);
    PlainRest(all, two, tail);
  }

  /** The promise is token by token, not that the output never spells the sequence: a
      removal can bring an ESC and a bracket together. */
  lemma RemovalCanSpellTheSequence()
    ensures Flatten(Emitted(), Parse(Tokens(), [ESC] + (CSI + SYNC_BODY + ([BRACKET] + SYNC_BODY))).tokens)
            == CSI + SYNC_BODY
  {
    var tail := [BRACKET] + SYNC_BODY;
    SyncIsDropped();
    EachOnItsOwn(SYNC_BODY, tail);
    assert [ESC] + [] + tail == CSI + SYNC_BODY;
  }
}
