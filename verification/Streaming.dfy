/**
 Streaming decoders. Three decoders of the system keep an accumulator: they take
 complete items off its front and hold back a tail that may still grow into one. Each
 is described by a reader that looks at the front of a byte string; `Parse` is what
 the decoder makes of a whole string, and the lemmas are the ones that hold of every
 reader that never changes its mind when more bytes arrive.
*/
module Streaming {
  import opened Bytes

  /** What is at the front: an item of some width, or too little to tell. */
  datatype Front<+T> = More | Item(token: T, width: nat)

  type Reader<!T> = seq<Byte> -> Front<T>

  datatype Parsed<+T> = Parsed(tokens: seq<T>, held: seq<Byte>)

  function Cons<T>(t: T, p: Parsed<T>): Parsed<T> {
    Parsed([t] + p.tokens, p.held)
  }

  predicate Takes<T>(front: Front<T>, bs: seq<Byte>) {
    front.Item? && 0 < front.width <= |bs|
  }

  function Parse<T>(read: Reader<T>, bs: seq<Byte>): Parsed<T>
    decreases |bs|
  {
    var front := read(bs);
    if Takes(front, bs) then Cons(front.token, Parse(read, bs[front.width..]))
    else Parsed([], bs)
  }

  /** More input never changes an item already complete. */
  ghost predicate Stable<T(!new)>(read: Reader<T>) {
    forall a, b | Takes(read(a), a) :: read(a + b) == read(a)
  }

  /** Cutting the stream anywhere, and reading what was held back together with the
      second part, gives the reading of the whole. */
  lemma {:induction false} ParseConcat<T(!new)>(read: Reader<T>, a: seq<Byte>, b: seq<Byte>)
    requires Stable(read)
    ensures var pa := Parse(read, a); var pb := Parse(read, pa.held + b);
            Parse(read, a + b) == Parsed(pa.tokens + pb.tokens, pb.held)
    decreases |a|
  {
    var front := read(a);
    if Takes(front, a) {
      var rest := a[front.width..];
      assert read(a + b) == front;
      assert (a + b)[front.width..] == rest + b;
      ParseConcat(read, rest, b);
      var pr := Parse(read, rest);
      var pb := Parse(read, pr.held + b);
      Assoc([front.token], pr.tokens, pb.tokens);
    } else {
      Neutral(Parse(read, a + b).tokens);
    }
  }

  /** Bytes held back, read again, are held back again. */
  lemma {:induction false} HeldIsHeld<T>(read: Reader<T>, bs: seq<Byte>)
    ensures var held := Parse(read, bs).held; Parse(read, held) == Parsed([], held)
    ensures |Parse(read, bs).held| <= |bs|
    decreases |bs|
  {
    if Takes(read(bs), bs) {
      HeldIsHeld(read, bs[read(bs).width..]);
    }
  }

  function Flatten<T>(spell: T -> seq<Byte>, tokens: seq<T>): seq<Byte> {
    if tokens == [] then [] else spell(tokens[0]) + Flatten(spell, tokens[1..])
  }

  lemma {:induction false} FlattenConcat<T>(spell: T -> seq<Byte>, a: seq<T>, b: seq<T>)
    ensures Flatten(spell, a + b) == Flatten(spell, a) + Flatten(spell, b)
  {
    if a == [] {
      Neutral(b);
    } else {
      TailOfConcat(a, b);
      FlattenConcat(spell, a[1..], b);
      Assoc(spell(a[0]), Flatten(spell, a[1..]), Flatten(spell, b));
    }
  }

  /** The items are read off the stream in place: spelled out again, with the held
      tail, they are the input. */
  lemma {:induction false} ParseLossless<T(!new)>(read: Reader<T>, spell: T -> seq<Byte>, bs: seq<Byte>)
    requires forall a | Takes(read(a), a) :: spell(read(a).token) == a[..read(a).width]
    ensures Flatten(spell, Parse(read, bs).tokens) + Parse(read, bs).held == bs
    decreases |bs|
  {
    var front := read(bs);
    if Takes(front, bs) {
      ParseLossless(read, spell, bs[front.width..]);
      var rest := Parse(read, bs[front.width..]);
      assert ([front.token] + rest.tokens)[1..] == rest.tokens;
      assert bs == bs[..front.width] + bs[front.width..];
    }
  }

  function Concat(chunks: seq<seq<Byte>>): seq<Byte> {
    if chunks == [] then [] else chunks[0] + Concat(chunks[1..])
  }

  /** Feeding chunks one by one, carrying the held tail from one to the next. */
  function ParseChunks<T>(read: Reader<T>, held: seq<Byte>, chunks: seq<seq<Byte>>): Parsed<T>
    decreases |chunks|
  {
    if chunks == [] then Parsed([], held)
    else
      var now := Parse(read, held + chunks[0]);
      var later := ParseChunks(read, now.held, chunks[1..]);
      Parsed(now.tokens + later.tokens, later.held)
  }

  /** However the stream is cut, the items and the held tail are the same. */
  lemma {:induction false} ChunkingIsInvisible<T(!new)>(read: Reader<T>, held: seq<Byte>, chunks: seq<seq<Byte>>)
    requires Stable(read)
    requires Parse(read, held) == Parsed([], held)
    ensures ParseChunks(read, held, chunks) == Parse(read, held + Concat(chunks))
    decreases |chunks|
  {
    if chunks == [] {
      Neutral(held);
    } else {
      var now := Parse(read, held + chunks[0]);
      HeldIsHeld(read, held + chunks[0]);
      ChunkingIsInvisible(read, now.held, chunks[1..]);
      ParseConcat(read, held + chunks[0], Concat(chunks[1..]));
      Assoc(held, chunks[0], Concat(chunks[1..]));
    }
  }
}
