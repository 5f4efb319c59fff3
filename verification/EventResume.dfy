/**
 Resuming a subscription: one client that reads, loses its connection and subscribes
 again from the last sequence number it has seen, against one bus.
*/
module EventResume {
  import opened Wrappers
  import opened Bytes
  import opened EventStreams
  import opened EventBuses

  /** `sub.stream.received` is what the daemon has sent, and it runs on from stream to
      stream; of it, the first `known` events reached the client before this connection. */
  datatype World = World(count: nat, bytes: nat, published: seq<Event>, live: seq<Archived>,
                         connected: bool, known: nat, sub: Subscriber)

  /** Losing the connection loses the queue, and the last `lost` events on the wire. */
  datatype Move = Publish(name: string, params: Params, session: Option<nat>) | Read | Disconnect(lost: nat) | Subscribe

  /** `routeEvent` keeps the highest sequence number; the drop marker carries 0. */
  function Highest(es: seq<Event>): nat {
    if es == [] then 0
    else
      var last := Highest(es[..|es| - 1]);
      if es[|es| - 1].sequence > last then es[|es| - 1].sequence else last
  }

  function Blank(limit: nat, log: seq<Event>): Stream {
    Stream(limit, false, false, log, [])
  }

  function Start(count: nat, bytes: nat, limit: nat, filter: Filter): World {
    World(count, bytes, [], [], false, 0, Fresh(filter, Blank(limit, [])))
  }

  function Stamp(w: World, m: Move): Event
    requires m.Publish?
  {
    Event(m.name, |w.published| + 1, m.session, m.params)
  }

  function Resumed(w: World): seq<Event> {
    var last := Highest(w.sub.stream.received);
    if last == 0 then [] else Replay(w.live, last, w.sub.filter)
  }

  /** How many events the client has when the last `lost` sent never arrive. */
  function Arrived(w: World, lost: nat): (n: nat)
    ensures n <= |w.sub.stream.received|
  {
    var sent := |w.sub.stream.received|;
    if w.known + lost <= sent then sent - lost else if w.known <= sent then w.known else sent
  }

  function After(w: World, m: Move): World {
    var s := w.sub.stream;
    match m
    case Publish(_, _, _) =>
      var e := Stamp(w, m);
      var next := Deliver(w.sub, e);
      w.(published := w.published + [e],
         live := if w.count > 0 && w.bytes > 0 then Retained(w.live + Entry(e), w.count, w.bytes) else w.live,
         sub := if w.connected && next.Some? then next.value else w.sub)
    case Read => if w.connected then w.(sub := w.sub.(stream := s.Next())) else w
    case Disconnect(lost) =>
      if !w.connected then w
      else
        var log := s.received[..Arrived(w, lost)];
        w.(connected := false, known := |log|, sub := Fresh(w.sub.filter, Blank(s.limit, log)))
    case Subscribe =>
      if w.connected then w
      else w.(connected := true, known := |s.received|, sub := Fresh(w.sub.filter, OfferAll(Blank(s.limit, s.received), Resumed(w))))
  }

  function Run(w: World, moves: seq<Move>): World
    decreases |moves|
  {
    if moves == [] then w else Run(After(w, moves[0]), moves[1..])
  }

  // ---- always: published order, each event at most once --------------------------

  ghost predicate LiveRising(live: seq<Archived>, from: nat, next: nat) {
    && (forall i | 0 <= i < |live| :: from < live[i].sequence < next)
    && (forall i, j | 0 <= i < j < |live| :: live[i].sequence < live[j].sequence)
  }

  ghost predicate InOrder(w: World) {
    var s := w.sub.stream;
    && s.Valid() && !s.closed
    && Ordered(s.Flow(), |w.published| + 1)
    && LiveRising(w.live, 0, |w.published| + 1)
    && (!w.connected ==> s.queue == [] && !s.waiting)
  }

  lemma {:induction false} HighestBounds(es: seq<Event>, next: nat)
    requires Ordered(es, next)
    ensures Highest(es) < next && Ordered(es, Highest(es) + 1)
  {
    if es != [] {
      assert Ordered(es[..|es| - 1], next);
      HighestBounds(es[..|es| - 1], next);
    }
  }

  /** What a resumption replays comes after everything the client has. */
  lemma {:induction false} ReplayRising(live: seq<Archived>, since: nat, filter: Filter, s: Stream, from: nat, next: nat)
    requires LiveRising(live, from, next) && s.Valid() && !s.closed && since < next && from < next
    requires Ordered(s.Flow(), if from < since then since + 1 else from + 1)
    ensures var t := OfferAll(s, Replay(live, since, filter)); t.Valid() && !t.closed && Ordered(t.Flow(), next)
    decreases |live|
  {
    if live != [] {
      var e, f := live[0].Replayed(), live[0].sequence;
      assert LiveRising(live[1..], f, next);
      if e.sequence > since && filter.Admits(e) {
        OfferValid(s, e);
        OfferOrdered(s, e, f);
        var rest := Replay(live[1..], since, filter);
        assert ([e] + rest)[1..] == rest;
        ReplayRising(live[1..], since, filter, s.Offer(e).0, f, next);
      } else {
        ReplayRising(live[1..], since, filter, s, f, next);
      }
    }
  }

  lemma SubscribeInOrder(w: World)
    requires InOrder(w)
    ensures InOrder(After(w, Subscribe))
  {
    if !w.connected {
      var log := w.sub.stream.received;
      var blank := Blank(w.sub.stream.limit, log);
      assert w.sub.stream.Flow() == log == blank.Flow();
      HighestBounds(log, |w.published| + 1);
      if Highest(log) > 0 {
        ReplayRising(w.live, Highest(log), w.sub.filter, blank, 0, |w.published| + 1);
      }
    }
  }

  lemma LiveSuffix(live: seq<Archived>, k: nat, next: nat)
    requires LiveRising(live, 0, next) && k <= |live|
    ensures LiveRising(live[k..], 0, next)
  {}

  lemma LiveMore(live: seq<Archived>, e: Event, n: nat, count: nat, bytes: nat)
    requires LiveRising(live, 0, n) && n > 0 && e.sequence == n
    ensures LiveRising(live, 0, n + 1) && LiveRising(Retained(live + Entry(e), count, bytes), 0, n + 1)
  {
    var more := live + Entry(e);
    assert LiveRising(more, 0, n + 1);
    RetainedIsSuffix(more, count, bytes);
    LiveSuffix(more, |more| - |Retained(more, count, bytes)|, n + 1);
  }

  lemma PublishInOrder(w: World, m: Move)
    requires InOrder(w) && m.Publish?
    ensures InOrder(After(w, m))
  {
    var e, n := Stamp(w, m), |w.published| + 1;
    DeliverOrdered(w.sub, e);
    LiveMore(w.live, e, n, w.count, w.bytes);
  }

  lemma DisconnectInOrder(w: World, lost: nat)
    requires InOrder(w)
    ensures InOrder(After(w, Disconnect(lost)))
  {
    if w.connected {
      var s, n := w.sub.stream, Arrived(w, lost);
      var blank := Blank(s.limit, s.received[..n]);
      forall i | 0 <= i < n
        ensures blank.Flow()[i] == s.Flow()[i]
      {}
    }
  }

  /** Over every run of publishes, reads, losses and resumptions, with whatever overflow
      and eviction: the client's log is in publication order, no event twice, and the
      marker's sequence number 0 never moves what it will resume from. */
  lemma {:induction false} LogIsInOrder(w: World, moves: seq<Move>)
    requires InOrder(w)
    ensures InOrder(Run(w, moves))
    decreases |moves|
  {
    if moves != [] {
      match moves[0] {
        case Publish(_, _, _) => PublishInOrder(w, moves[0]);
        case Read => NextFlow(w.sub.stream);
        case Disconnect(lost) => DisconnectInOrder(w, lost);
        case Subscribe => SubscribeInOrder(w);
      }
      LogIsInOrder(After(w, moves[0]), moves[1..]);
    }
  }

  lemma MarkerLeavesResumePoint(log: seq<Event>, s: Subscriber)
    ensures Highest(log + [Marker(s)]) == Highest(log)
  {
    assert (log + [Marker(s)])[..|log|] == log;
  }

  // ---- without a gap --------------------------------------------------------------

  ghost predicate Numbered(published: seq<Event>) {
    forall i | 0 <= i < |published| :: published[i].sequence == i + 1 && Encodes(published[i].params)
  }

  /** The ring holds the last |live| published events. */
  ghost predicate HoldsTail(live: seq<Archived>, published: seq<Event>) {
    && |live| <= |published|
    && (forall i | 0 <= i < |live| :: live[i].Replayed() == published[|published| - |live| + i])
  }

  /** A caller can check this before resuming: nothing newer, or the next one is held. */
  predicate StillHeld(live: seq<Archived>, last: nat, published: nat) {
    last >= published || (live != [] && live[0].sequence <= last + 1)
  }

  lemma HoldsTailRest(live: seq<Archived>, published: seq<Event>)
    requires HoldsTail(live, published) && live != []
    ensures live[0].Replayed() == published[|published| - |live|] && HoldsTail(live[1..], published)
  {
    forall i | 0 <= i < |live| - 1
      ensures live[1..][i].Replayed() == published[|published| - (|live| - 1) + i]
    {
      assert live[1..][i] == live[i + 1];
    }
  }

  lemma SliceCons<T>(s: seq<T>, i: nat)
    requires i < |s|
    ensures [s[i]] + s[i + 1..] == s[i..]
  {}

  lemma SliceJoin<T>(s: seq<T>, i: nat, j: nat)
    requires i <= j <= |s|
    ensures s[i..j] + s[j..] == s[i..|s|]
  {}

  lemma {:induction false} ReplayTail(live: seq<Archived>, since: nat, published: seq<Event>)
    requires Numbered(published) && HoldsTail(live, published) && since <= |published|
    ensures var gone := |published| - |live|;
            Replay(live, since, Filter(None, None)) == published[if gone < since then since else gone..]
    decreases |live|
  {
    if live != [] {
      var gone := |published| - |live|;
      HoldsTailRest(live, published);
      ReplayTail(live[1..], since, published);
      SliceCons(published, gone);
    }
  }

  /** A resumption replays exactly what the client has not seen if and only if the ring
      still holds the next event. */
  lemma ReplayIsExact(live: seq<Archived>, since: nat, published: seq<Event>)
    requires Numbered(published) && HoldsTail(live, published) && since <= |published|
    ensures Replay(live, since, Filter(None, None)) == published[since..] <==> StillHeld(live, since, |published|)
  {
    ReplayTail(live, since, published);
    if live != [] {
      assert live[0].Replayed() == published[|published| - |live|];
    }
  }

  lemma {:induction false} HighestOfRun(es: seq<Event>, published: seq<Event>, from: nat)
    requires Numbered(published) && from + |es| <= |published| && es == published[from..from + |es|]
    ensures Highest(es) == if es == [] then 0 else from + |es|
  {
    if es != [] {
      HighestOfRun(es[..|es| - 1], published, from);
      assert es[|es| - 1] == published[from + |es| - 1];
    }
  }

  ghost predicate Contiguous(flow: seq<Event>, published: seq<Event>, end: nat) {
    |flow| <= end <= |published| && flow == published[end - |flow|..end]
  }

  ghost predicate Gapless(w: World) {
    var s := w.sub.stream;
    && w.sub.filter == Filter(None, None) && w.count > 0 && w.bytes > 0
    && s.Valid() && !s.closed && w.sub.droppedCount == 0
    && Numbered(w.published) && HoldsTail(w.live, w.published)
    && (if w.connected then Contiguous(s.Flow(), w.published, |w.published|)
        else s.queue == [] && !s.waiting && Highest(s.received) <= |w.published| &&
             (s.received == [] || Contiguous(s.received, w.published, Highest(s.received))))
  }

  /** What a run must meet for the promise: events encode, no queue overflows, and a
      resumption happens while the ring still holds the next event. */
  ghost predicate Promised(w: World, m: Move) {
    var s := w.sub.stream;
    match m
    case Publish(_, _, _) => Encodes(m.params) && (w.connected ==> s.waiting || |s.queue| < s.limit)
    case Subscribe => !w.connected ==>
        |Resumed(w)| <= s.limit &&
        (s.received != [] ==> StillHeld(w.live, Highest(s.received), |w.published|))
    case _ => true
  }

  ghost predicate AllPromised(w: World, moves: seq<Move>)
    decreases |moves|
  {
    moves == [] || (Promised(w, moves[0]) && AllPromised(After(w, moves[0]), moves[1..]))
  }

  lemma HoldsTailSnoc(live: seq<Archived>, published: seq<Event>, e: Event, count: nat, bytes: nat)
    requires HoldsTail(live, published) && Encodes(e.params)
    ensures HoldsTail(Retained(live + Entry(e), count, bytes), published + [e])
  {
    var more, all := live + Entry(e), published + [e];
    assert Entry(e)[0].Replayed() == e;
    assert HoldsTail(more, all);
    RetainedIsSuffix(more, count, bytes);
    var kept := Retained(more, count, bytes);
    forall i | 0 <= i < |kept|
      ensures kept[i].Replayed() == all[|all| - |kept| + i]
    {
      assert kept[i] == more[|more| - |kept| + i];
    }
  }

  lemma NumberedSnoc(published: seq<Event>, e: Event)
    requires Numbered(published) && e.sequence == |published| + 1 && Encodes(e.params)
    ensures Numbered(published + [e])
  {}

  lemma ContiguousSnoc(flow: seq<Event>, published: seq<Event>, e: Event)
    requires Contiguous(flow, published, |published|)
    ensures Contiguous(flow + [e], published + [e], |published| + 1)
  {
    var start := |published| - |flow|;
    assert (published + [e])[start..|published| + 1] == published[start..|published|] + [e];
  }

  lemma ContiguousLater(flow: seq<Event>, published: seq<Event>, end: nat, e: Event)
    requires Contiguous(flow, published, end)
    ensures Contiguous(flow, published + [e], end)
  {
    assert (published + [e])[end - |flow|..end] == published[end - |flow|..end];
  }

  lemma PublishMissed(w: World, m: Move)
    requires Gapless(w) && m.Publish? && Promised(w, m) && !w.connected
    ensures Gapless(After(w, m))
  {
    var e, s := Stamp(w, m), w.sub.stream;
    NumberedSnoc(w.published, e);
    HoldsTailSnoc(w.live, w.published, e, w.count, w.bytes);
    if s.received != [] {
      ContiguousLater(s.received, w.published, Highest(s.received), e);
    }
  }

  lemma PublishHeard(w: World, m: Move)
    requires Gapless(w) && m.Publish? && Promised(w, m) && w.connected
    ensures Gapless(After(w, m))
  {
    var e, s := Stamp(w, m), w.sub.stream;
    NumberedSnoc(w.published, e);
    HoldsTailSnoc(w.live, w.published, e, w.count, w.bytes);
    OfferValid(s, e);
    OfferFlow(s, e);
    ContiguousSnoc(s.Flow(), w.published, e);
    var z := After(w, m);
    assert z.sub == w.sub.(stream := s.Offer(e).0);
    assert |z.published| == |w.published| + 1;
  }

  /** Whatever part of what was sent has arrived, it is contiguous. */
  lemma SentSoFar(w: World, n: nat)
    requires Gapless(w) && w.connected && n <= |w.sub.stream.received|
    ensures var log := w.sub.stream.received[..n];
            Highest(log) <= |w.published| && Contiguous(log, w.published, if log == [] then 0 else Highest(log))
  {
    var s := w.sub.stream;
    var end, flow := |w.published|, s.Flow();
    var from := end - |flow|;
    assert s.received[..n] == flow[..n] == w.published[from..end][..n];
    assert s.received[..n] == w.published[from..from + n];
    HighestOfRun(s.received[..n], w.published, from);
  }

  lemma DisconnectGapless(w: World, lost: nat)
    requires Gapless(w)
    ensures Gapless(After(w, Disconnect(lost)))
  {
    if w.connected {
      SentSoFar(w, Arrived(w, lost));
    }
  }

  lemma ContiguousNothing(published: seq<Event>)
    ensures Contiguous([] + [], published, |published|)
  {}

  lemma ContiguousRejoin(log: seq<Event>, published: seq<Event>, last: nat)
    requires Contiguous(log, published, last)
    ensures Contiguous(log + published[last..], published, |published|)
  {
    SliceJoin(published, last - |log|, last);
  }

  lemma SubscribeGapless(w: World)
    requires Gapless(w) && Promised(w, Subscribe)
    ensures Gapless(After(w, Subscribe))
  {
    if !w.connected {
      var log, n := w.sub.stream.received, |w.published|;
      var blank := Blank(w.sub.stream.limit, log);
      OfferAllQueues(blank, Resumed(w));
      Neutral(Resumed(w));
      if log == [] {
        ContiguousNothing(w.published);
      } else {
        var last := Highest(log);
        HighestOfRun(log, w.published, last - |log|);
        ReplayIsExact(w.live, last, w.published);
        ContiguousRejoin(log, w.published, last);
      }
    }
  }

  lemma ReadGapless(w: World)
    requires Gapless(w)
    ensures Gapless(After(w, Move.Read))
  {
    NextFlow(w.sub.stream);
  }

  /** Gapless resume: kept promises make the client's log, at every point of the run, a
      contiguous piece of the published sequence, ending with what it resumes from, whatever
      was queued or on the wire when a connection was lost. */
  lemma {:induction false} ResumeIsGapless(w: World, moves: seq<Move>)
    requires Gapless(w) && AllPromised(w, moves)
    ensures var z := Run(w, moves); var log := z.sub.stream.received;
            Gapless(z) && Contiguous(log, z.published, if log == [] then 0 else Highest(log))
    decreases |moves|
  {
    if moves == [] {
      if w.connected {
        SentSoFar(w, |w.sub.stream.received|);
        assert w.sub.stream.received[..|w.sub.stream.received|] == w.sub.stream.received;
      }
    } else {
      match moves[0] {
        case Publish(_, _, _) =>
          if w.connected {
            PublishHeard(w, moves[0]);
          } else {
            PublishMissed(w, moves[0]);
          }
        case Read => ReadGapless(w);
        case Disconnect(lost) => DisconnectGapless(w, lost);
        case Subscribe => SubscribeGapless(w);
      }
      ResumeIsGapless(After(w, moves[0]), moves[1..]);
    }
  }

  /** Both theorems hold from the start of a daemon. */
  lemma FromTheStart(count: nat, bytes: nat, limit: nat, filter: Filter)
    requires limit >= 1
    ensures InOrder(Start(count, bytes, limit, filter))
    ensures count > 0 && bytes > 0 ==> Gapless(Start(count, bytes, limit, Filter(None, None)))
  {}
}
