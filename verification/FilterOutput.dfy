/**
 The filter's output, read again. The filter decides token by token; what it leaves reads
 as the same tokens, without the mode it removes, exactly as long as no removal brings a
 lone ESC and a bracket together.
*/
module FilterOutput {
  import opened Bytes
  import opened Streaming
  import opened InputFilter

  /** The token sent on for a token, if any. */
  function Rewritten(t: Token): seq<Token> {
    if !(t.Sequence? && Altered(t.body)) then [t]
    else
      var kept := Without(Split(ModeText(t.body)), SYNC);
      if kept == [] then [] else [Sequence(ModeBody(kept, t.body[|t.body| - 1]))]
  }

  predicate Vanishes(t: Token) { Rewritten(t) == [] }

  function Kept(tokens: seq<Token>): seq<Token> {
    if tokens == [] then [] else Rewritten(tokens[0]) + Kept(tokens[1..])
  }

  function Output(tokens: seq<Token>): seq<Byte> { Flatten(Emitted(), tokens) }

  /** What a reader takes for a token: bodies end with their first final byte. */
  ghost predicate WellFormed(t: Token) {
    match t
    case Plain(_) => true
    case Sequence(b) => 0 < |b| <= LIMIT + 1 && NoFinal(b[..|b| - 1]) && IsFinal(b[|b| - 1])
    case Overlong(b) => |b| == LIMIT + 1 && NoFinal(b)
  }

  ghost predicate AllWellFormed(tokens: seq<Token>) {
    forall t | t in tokens :: WellFormed(t)
  }

  lemma FrontWellFormed(bs: seq<Byte>)
    requires Takes(FilterFront(bs), bs)
    ensures WellFormed(FilterFront(bs).token)
  {
    if bs[0] == ESC && bs[1] == BRACKET {
      var body := bs[2..];
      var k := FirstFinal(body);
      if k < |body| && k <= LIMIT {
        assert body[..k + 1][..k] == body[..k];
      } else {
        assert forall b | b in body[..LIMIT + 1] :: b in body[..k];
      }
    }
  }

  lemma {:induction false} ParsedWellFormed(bs: seq<Byte>)
    ensures AllWellFormed(Parse(Tokens(), bs).tokens)
    decreases |bs|
  {
    var front := Tokens()(bs);
    if Takes(front, bs) {
      FrontWellFormed(bs);
      ParsedWellFormed(bs[front.width..]);
    }
  }

  /** A token spelled out is read as itself, except an ESC that something joins. */
  lemma FrontOfToken(t: Token, rest: seq<Byte>)
    requires WellFormed(t) && (t == Plain(ESC) ==> rest != [] && rest[0] != BRACKET)
    ensures Tokens()(Spell()(t) + rest) == Item(t, |Spell()(t)|)
    ensures (Spell()(t) + rest)[|Spell()(t)|..] == rest
  {
    match t
    case Plain(b) => assert ([b] + rest)[0] == b;
    case Sequence(b) => FrontOfSequence(b, rest);
    case Overlong(b) => FrontOfOverlong(b, rest);
  }

  lemma FrontOfSequence(b: seq<Byte>, rest: seq<Byte>)
    requires WellFormed(Sequence(b))
    ensures FilterFront(CSI + b + rest) == Item(Sequence(b), |CSI + b|) && (CSI + b + rest)[|CSI + b|..] == rest
  {
    FrontBody(b, rest);
    BodyItself(b, rest);
    FirstFinalIs(b + rest, |b| - 1);
  }

  lemma FrontOfOverlong(b: seq<Byte>, rest: seq<Byte>)
    requires WellFormed(Overlong(b))
    ensures FilterFront(CSI + b + rest) == Item(Overlong(b), |CSI + b|) && (CSI + b + rest)[|CSI + b|..] == rest
  {
    FrontBody(b, rest);
    BodyItself(b, rest);
    FirstFinalBeyond(b + rest, |b|);
  }

  lemma {:induction false} JoinNoFinal(ps: seq<seq<Byte>>)
    requires AllNumeric(ps)
    ensures NoFinal(Join(ps))
  {
    if |ps| > 1 {
      assert AllNumeric(ps[1..]);
      JoinNoFinal(ps[1..]);
    }
    assert ps != [] ==> Numeric(ps[0]);
  }

  lemma ModeBodyParts(ps: seq<seq<Byte>>, final: Byte)
    ensures var b := ModeBody(ps, final); |b| == 2 + |Join(ps)| && b[|b| - 1] == final && b[..|b| - 1] == [QUESTION] + Join(ps)
    ensures final == SET_MODE || final == RESET_MODE ==> IsMode(ModeBody(ps, final)) ==> ModeText(ModeBody(ps, final)) == Join(ps)
  {}

  /** What is sent on is a proper token, and not one that would be altered again. */
  lemma RewrittenIsSettled(t: Token)
    requires WellFormed(t)
    ensures forall u | u in Rewritten(t) :: WellFormed(u) && !(u.Sequence? && Altered(u.body))
    ensures Emitted()(t) == if Vanishes(t) then [] else Spell()(Rewritten(t)[0])
  {
    if t.Sequence? && Altered(t.body) {
      var ps, final := Split(ModeText(t.body)), t.body[|t.body| - 1];
      var kept := Without(ps, SYNC);
      AlteredIsSync(t.body);
      if kept != [] {
        assert AllNumeric(kept);
        WithoutShortens(ps);
        ModeBodyParts(ps, final);
        ModeBodyParts(kept, final);
        JoinNoFinal(kept);
        SplitJoin(kept);
      }
    }
  }

  lemma {:induction false} KeptIsSettled(tokens: seq<Token>)
    requires AllWellFormed(tokens)
    ensures forall u | u in Kept(tokens) :: WellFormed(u) && !(u.Sequence? && Altered(u.body))
  {
    if tokens != [] {
      RewrittenIsSettled(tokens[0]);
      assert AllWellFormed(tokens[1..]);
      KeptIsSettled(tokens[1..]);
    }
  }

  // ---- where a removal joins what it leaves ---------------------------------------

  /** Nothing but vanishing sequences comes before a plain bracket. */
  predicate BracketNext(tokens: seq<Token>) {
    tokens != [] && (tokens[0] == Plain(BRACKET) || (Vanishes(tokens[0]) && BracketNext(tokens[1..])))
  }

  /** Somewhere a lone ESC is followed, past vanishing sequences, by a plain bracket. The
      filter can see it coming: a sequence is dropped right after a lone ESC was sent on. */
  predicate Joins(tokens: seq<Token>) {
    tokens != [] && ((tokens[0] == Plain(ESC) && BracketNext(tokens[1..])) || Joins(tokens[1..]))
  }

  lemma {:induction false} OutputStart(tokens: seq<Token>)
    requires AllWellFormed(tokens)
    ensures Output(tokens) == [] <==> Kept(tokens) == []
    ensures BracketNext(tokens) <==> Output(tokens) != [] && Output(tokens)[0] == BRACKET
  {
    if tokens != [] {
      RewrittenIsSettled(tokens[0]);
      assert AllWellFormed(tokens[1..]);
      OutputStart(tokens[1..]);
    }
  }

  /** Tokens as a reader gives them back: an ESC at the very end is still held. */
  function Again(us: seq<Token>): Parsed<Token> {
    if us != [] && us[|us| - 1] == Plain(ESC) then Parsed(us[..|us| - 1], [ESC]) else Parsed(us, [])
  }

  lemma AgainCons(u: Token, us: seq<Token>)
    requires us != [] || u != Plain(ESC)
    ensures Again([u] + us) == Cons(u, Again(us))
  {
    if us != [] {
      assert ([u] + us)[..|us|] == [u] + us[..|us| - 1];
    }
  }

  lemma ConsSame(u: Token, a: Parsed<Token>, b: Parsed<Token>)
    ensures Cons(u, a) == Cons(u, b) <==> a == b
  {
    if Cons(u, a) == Cons(u, b) {
      assert ([u] + a.tokens)[1..] == a.tokens && ([u] + b.tokens)[1..] == b.tokens;
    }
  }

  /** One token more in front, where nothing joins it. */
  lemma ReadsOn(t: Token, tail: seq<Token>)
    requires WellFormed(t) && AllWellFormed(tail) && !Vanishes(t)
    requires t == Plain(ESC) ==> Output(tail) != [] && Output(tail)[0] != BRACKET
    ensures Parse(Tokens(), Output([t] + tail)) == Again(Kept([t] + tail)) <==>
              Parse(Tokens(), Output(tail)) == Again(Kept(tail))
  {
    var u := Rewritten(t)[0];
    RewrittenIsSettled(t);
    OutputStart(tail);
    assert ([t] + tail)[1..] == tail;
    FrontOfToken(u, Output(tail));
    AgainCons(u, Kept(tail));
    ConsSame(u, Parse(Tokens(), Output(tail)), Again(Kept(tail)));
  }

  /** A lone ESC meets a bracket: the reader sees a control sequence begin. */
  lemma ReadsJoined(tail: seq<Token>)
    requires AllWellFormed(tail) && BracketNext(tail)
    ensures Parse(Tokens(), Output([Plain(ESC)] + tail)) != Again(Kept([Plain(ESC)] + tail))
  {
    OutputStart(tail);
    assert ([Plain(ESC)] + tail)[1..] == tail;
    var out := Output([Plain(ESC)] + tail);
    assert out[0] == ESC && out[1] == BRACKET;
    var us := Kept([Plain(ESC)] + tail);
    assert us[0] == Plain(ESC) && |us| >= 2;
    assert Again(us).tokens[0] == Plain(ESC);
    assert Takes(Tokens()(out), out) ==> !Tokens()(out).token.Plain?;
  }

  lemma LoneEscape(tail: seq<Token>)
    requires AllWellFormed(tail) && Output(tail) == []
    ensures Parse(Tokens(), Output([Plain(ESC)] + tail)) == Again(Kept([Plain(ESC)] + tail))
  {
    OutputStart(tail);
    assert ([Plain(ESC)] + tail)[1..] == tail;
    assert [ESC] + [] == [ESC] && [Plain(ESC)] + [] == [Plain(ESC)];
    assert [Plain(ESC)][..0] == [];
  }

  ghost predicate ReadsBack(tokens: seq<Token>) {
    Parse(Tokens(), Output(tokens)) == Again(Kept(tokens))
  }

  lemma VanishedReads(t: Token, tail: seq<Token>)
    requires WellFormed(t) && Vanishes(t)
    ensures Output([t] + tail) == Output(tail) && Kept([t] + tail) == Kept(tail)
  {
    RewrittenIsSettled(t);
    assert ([t] + tail)[1..] == tail;
  }

  lemma JoinsCons(t: Token, tail: seq<Token>)
    ensures Joins([t] + tail) <==> (t == Plain(ESC) && BracketNext(tail)) || Joins(tail)
  {
    assert ([t] + tail)[1..] == tail;
  }

  lemma ReadsCons(t: Token, tail: seq<Token>)
    requires WellFormed(t) && AllWellFormed(tail) && (ReadsBack(tail) <==> !Joins(tail))
    ensures ReadsBack([t] + tail) <==> !Joins([t] + tail)
  {
    JoinsCons(t, tail);
    OutputStart(tail);
    if Vanishes(t) {
      VanishedReads(t, tail);
    } else if t == Plain(ESC) && BracketNext(tail) {
      ReadsJoined(tail);
    } else if t == Plain(ESC) && Output(tail) == [] {
      LoneEscape(tail);
      NothingJoins(tail);
    } else {
      ReadsOn(t, tail);
    }
  }

  lemma {:induction false} NothingJoins(tokens: seq<Token>)
    requires AllWellFormed(tokens) && Output(tokens) == []
    ensures !Joins(tokens)
  {
    if tokens != [] {
      RewrittenIsSettled(tokens[0]);
      assert AllWellFormed(tokens[1..]);
      NothingJoins(tokens[1..]);
    }
  }

  /** The output reads as the tokens sent on, if and only if nothing joins. */
  lemma {:induction false} OutputReads(tokens: seq<Token>)
    requires AllWellFormed(tokens)
    ensures ReadsBack(tokens) <==> !Joins(tokens)
  {
    if tokens != [] {
      assert AllWellFormed(tokens[1..]);
      OutputReads(tokens[1..]);
      ReadsCons(tokens[0], tokens[1..]);
      assert [tokens[0]] + tokens[1..] == tokens;
    }
  }

  /** The promise on a whole stream: without a join the output holds no control sequence that
      sets or resets mode 2026 among numeric modes. */
  lemma NothingLeftToRemove(bs: seq<Byte>)
    ensures var tokens := Parse(Tokens(), bs).tokens;
            !Joins(tokens) ==> forall u | u in Parse(Tokens(), Output(tokens)).tokens :: !(u.Sequence? && Altered(u.body))
  {
    var tokens := Parse(Tokens(), bs).tokens;
    ParsedWellFormed(bs);
    OutputReads(tokens);
    KeptIsSettled(tokens);
    if !Joins(tokens) {
      forall u | u in Parse(Tokens(), Output(tokens)).tokens
        ensures u in Kept(tokens)
      {}
    }
  }

  /** And for a whole stream the output reads as the stream without 2026, exactly then. */
  lemma FilteredStreamReads(bs: seq<Byte>)
    ensures var tokens := Parse(Tokens(), bs).tokens; ReadsBack(tokens) <==> !Joins(tokens)
  {
    ParsedWellFormed(bs);
    OutputReads(Parse(Tokens(), bs).tokens);
  }

  lemma SequenceAfter(held: seq<Byte>, body: seq<Byte>, more: seq<Byte>)
    requires held == [] || held == [ESC]
    requires WellFormed(Sequence(body))
    ensures Sequence(body) in Parse(Tokens(), held + (CSI + body + more)).tokens
  {
    var rest := CSI + body + more;
    FrontOfToken(Sequence(body), more);
    assert rest[0] == ESC;
    if held == [ESC] {
      FrontOfToken(Plain(ESC), rest);
    } else {
      Neutral(rest);
    }
  }

  lemma SpellsIt(body: seq<Byte>, more: seq<Byte>)
    ensures [ESC] + ([BRACKET] + body + more) == CSI + body + more
  {}

  lemma OutputSplit(before: seq<Token>, after: seq<Token>, body: seq<Byte>, more: seq<Byte>)
    requires Output(after) == [BRACKET] + body + more
    ensures ([Plain(ESC)] + after)[1..] == after
    ensures Output(before + ([Plain(ESC)] + after)) == Output(before) + (CSI + body + more)
  {
    assert ([Plain(ESC)] + after)[1..] == after;
    FlattenConcat(Emitted(), before, [Plain(ESC)] + after);
    SpellsIt(body, more);
  }

  /** The converse: where the first join is followed by bytes that spell such a sequence, the
      output holds it. */
  lemma JoinCanSpellIt(before: seq<Token>, after: seq<Token>, body: seq<Byte>, more: seq<Byte>)
    requires AllWellFormed(before) && AllWellFormed(after) && !Joins(before)
    requires Output(after) == [BRACKET] + body + more && WellFormed(Sequence(body)) && Altered(body)
    ensures Joins([Plain(ESC)] + after)
    ensures Sequence(body) in Parse(Tokens(), Output(before + ([Plain(ESC)] + after))).tokens
  {
    OutputStart(after);
    var out := Output(before);
    OutputSplit(before, after, body, more);
    OutputReads(before);
    var was := Parse(Tokens(), out);
    TokensAreStable();
    ParseConcat(Tokens(), out, CSI + body + more);
    SequenceAfter(was.held, body, more);
  }

  // ---- the filter on bytes --------------------------------------------------------
  // What can stand at the front of a stream, and what the filter makes of it; between them
  // the laws leave it no choice on any stream.

  function Filtered(bs: seq<Byte>): seq<Byte> { Output(Parse(Tokens(), bs).tokens) }

  lemma TokenIsEmitted(t: Token, rest: seq<Byte>)
    requires WellFormed(t) && (t == Plain(ESC) ==> rest != [] && rest[0] != BRACKET)
    ensures Filtered(Spell()(t) + rest) == Emitted()(t) + Filtered(rest)
  {
    FrontOfToken(t, rest);
    var p := Parse(Tokens(), rest);
    assert Parse(Tokens(), Spell()(t) + rest) == Cons(t, p);
    assert ([t] + p.tokens)[1..] == p.tokens;
  }

  lemma {:induction false} TextPasses(text: seq<Byte>, rest: seq<Byte>)
    requires ESC !in text
    ensures Filtered(text + rest) == text + Filtered(rest)
  {
    if text == [] {
      Neutral(rest);
      Neutral(Filtered(rest));
    } else {
      assert text == [text[0]] + text[1..];
      Assoc([text[0]], text[1..], rest);
      TextPasses(text[1..], rest);
      TokenIsEmitted(Plain(text[0]), text[1..] + rest);
      Assoc([text[0]], text[1..], Filtered(rest));
    }
  }

  lemma EscapePasses(rest: seq<Byte>)
    requires rest != [] && rest[0] != BRACKET
    ensures Filtered([ESC] + rest) == [ESC] + Filtered(rest)
  {
    TokenIsEmitted(Plain(ESC), rest);
  }

  /** A numeric mode sequence loses 2026 and nothing else, wherever it stands. */
  lemma ModesAreFiltered(text: seq<Byte>, ps: seq<seq<Byte>>, final: Byte, rest: seq<Byte>)
    requires ESC !in text && ps != [] && AllNumeric(ps) && (final == SET_MODE || final == RESET_MODE)
    requires |Join(ps)| + 1 <= LIMIT
    ensures var kept := Without(ps, SYNC);
            Filtered(text + (CSI + ModeBody(ps, final) + rest)) ==
            text + ((if kept == [] then [] else CSI + ModeBody(kept, final)) + Filtered(rest))
  {
    TextPasses(text, CSI + ModeBody(ps, final) + rest);
    ModeBodyParts(ps, final);
    JoinNoFinal(ps);
    TokenIsEmitted(Sequence(ModeBody(ps, final)), rest);
    RewriteModes(ps, final);
    NothingToDrop(ps);
  }

  lemma {:induction false} NothingToDrop(ps: seq<seq<Byte>>)
    ensures SYNC !in ps ==> Without(ps, SYNC) == ps
  {
    if ps != [] && SYNC !in ps {
      assert SYNC !in ps[1..] && ps[0] in ps;
      NothingToDrop(ps[1..]);
    }
  }

  /** Every occurrence goes, and every other mode stays, as often and where it was. */
  lemma {:induction false} WithoutParts(a: seq<seq<Byte>>, b: seq<seq<Byte>>, p: seq<Byte>)
    ensures Without(a + b, p) == Without(a, p) + Without(b, p) && Without([p], p) == []
    ensures forall q | q != p :: Without([q], p) == [q]
  {
    if a == [] {
      assert a + b == b && [] + Without(b, p) == Without(b, p);
    } else {
      assert (a + b)[1..] == a[1..] + b;
      WithoutParts(a[1..], b, p);
    }
  }

  /** Any other control sequence passes, complete or beyond the longest waited for. */
  lemma OthersPass(body: seq<Byte>, rest: seq<Byte>)
    requires WellFormed(Sequence(body)) || WellFormed(Overlong(body))
    requires !exists ps, final :: SyncMode(body, ps, final)
    ensures Filtered(CSI + body + rest) == CSI + body + Filtered(rest)
  {
    RewriteAlters(body);
    if WellFormed(Sequence(body)) {
      TokenIsEmitted(Sequence(body), rest);
    } else {
      TokenIsEmitted(Overlong(body), rest);
    }
  }

  /** What may still become a sequence waits. */
  lemma UnfinishedWaits(body: seq<Byte>)
    requires NoFinal(body) && |body| <= LIMIT
    ensures Filtered([]) == [] && Filtered([ESC]) == [] && Filtered(CSI + body) == []
    ensures Parse(Tokens(), CSI + body).held == CSI + body
  {
    FrontBody(body, []);
    Neutral(body);
    Neutral(CSI + body);
    FirstFinalBeyond(body, |body|);
  }
}
