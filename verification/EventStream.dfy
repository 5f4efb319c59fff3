/**
 One subscriber of the event bus: a bounded stream that keeps the newest elements, the
 bookkeeping for the drop marker owed to the consumer, and what a whole run of publishes
 and reads makes of them.
*/
module EventStreams {
  import opened Wrappers
  import opened Bytes

  /** A JSON value is known by what the encoder makes of it; `None` does not encode. */
  datatype Params = Json(encoding: Option<seq<Byte>>) | Gap(dropped: nat, fromSeq: nat, toSeq: nat)

  datatype Event = Event(name: string, sequence: nat, session: Option<nat>, params: Params)

  const DROPPED := "events.dropped"

  datatype Filter = Filter(sessions: Option<set<nat>>, kinds: Option<set<string>>) {
    predicate Admits(event: Event) {
      event.name == DROPPED ||
      ((kinds.None? || event.name in kinds.value) &&
       (sessions.None? || (event.session.Some? && event.session.value in sessions.value)))
    }
  }

  function Nonempty<T>(s: Option<set<T>>): Option<set<T>> {
    if s == Some({}) then None else s
  }

  function MakeFilter(sessions: Option<set<nat>>, kinds: Option<set<string>>): Filter {
    Filter(Nonempty(sessions), Nonempty(kinds))
  }

  /** An empty set asks for nothing in particular, and no filter hides a drop marker. */
  lemma EmptyFilterAdmitsAll(sessions: Option<set<nat>>, kinds: Option<set<string>>, e: Event)
    ensures MakeFilter(sessions, kinds).Admits(e) <==>
              e.name == DROPPED ||
              ((kinds == None || kinds == Some({}) || e.name in kinds.value) &&
               (sessions == None || sessions == Some({}) || (e.session.Some? && e.session.value in sessions.value)))
  {}

  // ---- the stream -----------------------------------------------------------------

  datatype Yield = Enqueued | Dropped(evicted: Event) | Terminated

  /** A stream that buffers the newest `limit` elements. `waiting` when the consumer is
      suspended on an empty buffer; `received` is what it has been handed. */
  datatype Stream = Stream(limit: nat, closed: bool, waiting: bool, received: seq<Event>, queue: seq<Event>) {
    ghost predicate Valid() {
      limit >= 1 && |queue| <= limit && (waiting ==> queue == [])
    }

    function Offer(event: Event): (Stream, Yield) {
      if closed then (this, Terminated)
      else if waiting then (this.(waiting := false, received := received + [event]), Enqueued)
      else if |queue| < limit then (this.(queue := queue + [event]), Enqueued)
      else if queue == [] then (this, Dropped(event))
      else (this.(queue := queue[1..] + [event]), Dropped(queue[0]))
    }

    /** The consumer asks for its next element. */
    function Next(): Stream {
      if queue == [] then this.(waiting := true)
      else this.(received := received + [queue[0]], queue := queue[1..])
    }

    /** Everything that reached the consumer or still can. */
    function Flow(): seq<Event> { received + queue }
  }

  datatype Subscriber = Subscriber(filter: Filter, stream: Stream, droppedCount: nat, firstDropped: nat, lastDropped: nat)

  function Fresh(filter: Filter, stream: Stream): Subscriber {
    Subscriber(filter, stream, 0, 0, 0)
  }

  function Marker(s: Subscriber): Event {
    Event(DROPPED, 0, None, Gap(s.droppedCount, s.firstDropped, s.lastDropped))
  }

  /** One event handed to one subscriber; `None` when the stream turned out closed. */
  function Deliver(s: Subscriber, event: Event): Option<Subscriber> {
    if !s.filter.Admits(event) then Some(s)
    else
      var (stream, outcome) := s.stream.Offer(event);
      match outcome
      case Terminated => None
      case Enqueued =>
        if s.droppedCount == 0 then Some(s.(stream := stream))
        else Some(s.(stream := stream.Offer(Marker(s)).0, droppedCount := 0))
      case Dropped(evicted) =>
        Some(s.(stream := stream,
                firstDropped := if s.droppedCount == 0 then evicted.sequence else s.firstDropped,
                lastDropped := evicted.sequence,
                droppedCount := s.droppedCount + 1))
  }

  // ---- runs -----------------------------------------------------------------------

  datatype Step = Publish(event: Event) | Read

  /** A subscriber with its books: every admitted event, every marker issued, every
      element evicted with a report, the part of those not yet in a marker, and every
      element the yield of a marker evicted. */
  datatype Books = Books(sub: Subscriber, admitted: seq<Event>, markers: seq<Event>,
                         counted: seq<Event>, burst: seq<Event>, uncounted: seq<Event>)

  function Open(sub: Subscriber): Books { Books(sub, [], [], [], [], []) }

  function Victims(stream: Stream, event: Event): seq<Event> {
    var outcome := stream.Offer(event).1;
    if outcome.Dropped? then [outcome.evicted] else []
  }

  function After(b: Books, step: Step): Books {
    match step
    case Read => b.(sub := b.sub.(stream := b.sub.stream.Next()))
    case Publish(e) =>
      var s := b.sub;
      var next := Deliver(s, e);
      if !s.filter.Admits(e) || next.None? then b
      else
        var (stream, outcome) := s.stream.Offer(e);
        var here := b.(sub := next.value, admitted := b.admitted + [e]);
        if outcome.Dropped? then
          here.(counted := b.counted + [outcome.evicted], burst := b.burst + [outcome.evicted])
        else if s.droppedCount > 0 then
          here.(markers := b.markers + [Marker(s)], burst := [], uncounted := b.uncounted + Victims(stream, Marker(s)))
        else here
  }

  function Run(b: Books, steps: seq<Step>): Books
    decreases |steps|
  {
    if steps == [] then b else Run(After(b, steps[0]), steps[1..])
  }

  function Reported(markers: seq<Event>): nat {
    if markers == [] then 0
    else Reported(markers[..|markers| - 1]) +
         (var p := markers[|markers| - 1].params; if p.Gap? then p.dropped else 0)
  }

  // Conservation: nothing is lost that is not in one of the books.

  function Copies(s: seq<Event>, x: Event): nat { multiset(s)[x] }

  function Held(s: Stream, x: Event): nat { Copies(s.received, x) + Copies(s.queue, x) }

  ghost predicate Balanced(b: Books, x: Event) {
    Copies(b.admitted, x) + Copies(b.markers, x) ==
      Held(b.sub.stream, x) + Copies(b.counted, x) + Copies(b.uncounted, x)
  }

  ghost predicate Conserved(b: Books) {
    forall x: Event :: Balanced(b, x)
  }

  ghost predicate Tallied(b: Books) {
    && b.sub.stream.Valid()
    && |b.burst| == b.sub.droppedCount
    && |b.counted| == Reported(b.markers) + |b.burst|
    && |b.uncounted| <= |b.markers|
    && (b.burst != [] ==> b.sub.firstDropped == b.burst[0].sequence && b.sub.lastDropped == b.burst[|b.burst| - 1].sequence)
  }

  lemma Snoc(s: seq<Event>, e: Event, x: Event)
    ensures Copies(s + [e], x) == Copies(s, x) + if e == x then 1 else 0
  {}

  lemma Uncons(s: seq<Event>, x: Event)
    requires s != []
    ensures Copies(s, x) == Copies(s[1..], x) + if s[0] == x then 1 else 0
  {
    assert s == [s[0]] + s[1..];
  }

  lemma OfferValid(s: Stream, e: Event)
    requires s.Valid() && !s.closed
    ensures s.Offer(e).0.Valid() && !s.Offer(e).0.closed && !s.Offer(e).1.Terminated?
  {}

  lemma OfferConserves(s: Stream, e: Event, x: Event)
    requires s.Valid() && !s.closed
    ensures Held(s.Offer(e).0, x) + Copies(Victims(s, e), x) == Held(s, x) + if e == x then 1 else 0
  {
    if s.waiting {
      Snoc(s.received, e, x);
    } else if |s.queue| == s.limit {
      Uncons(s.queue, x);
      Snoc(s.queue[1..], e, x);
      Snoc([], s.queue[0], x);
      assert [] + [s.queue[0]] == [s.queue[0]];
    } else {
      Snoc(s.queue, e, x);
    }
  }

  lemma NextConserves(s: Stream, x: Event)
    requires s.Valid()
    ensures s.Next().Valid() && s.Next().closed == s.closed && Held(s.Next(), x) == Held(s, x)
  {
    if s.queue != [] {
      Uncons(s.queue, x);
      Snoc(s.received, s.queue[0], x);
    }
  }

  lemma EvictingConserves(b: Books, e: Event, x: Event)
    requires Balanced(b, x) && b.sub.stream.Valid() && !b.sub.stream.closed && b.sub.filter.Admits(e)
    requires b.sub.stream.Offer(e).1.Dropped?
    ensures Balanced(After(b, Publish(e)), x)
  {
    OfferConserves(b.sub.stream, e, x);
    Snoc(b.admitted, e, x);
    CopiesConcat(b.counted, Victims(b.sub.stream, e), x);
  }

  lemma MarkingConserves(b: Books, e: Event, x: Event)
    requires Balanced(b, x) && b.sub.stream.Valid() && !b.sub.stream.closed && b.sub.filter.Admits(e)
    requires b.sub.stream.Offer(e).1.Enqueued? && b.sub.droppedCount > 0
    ensures Balanced(After(b, Publish(e)), x)
  {
    var s, t, m := b.sub.stream, b.sub.stream.Offer(e).0, Marker(b.sub);
    OfferConserves(s, e, x);
    OfferValid(s, e);
    OfferConserves(t, m, x);
    Snoc(b.admitted, e, x);
    Snoc(b.markers, m, x);
    CopiesConcat(b.uncounted, Victims(t, m), x);
    assert Victims(s, e) == [];
    assert After(b, Publish(e)).sub.stream == t.Offer(m).0;
  }

  lemma PlainConserves(b: Books, e: Event, x: Event)
    requires Balanced(b, x) && b.sub.stream.Valid() && !b.sub.stream.closed && b.sub.filter.Admits(e)
    requires b.sub.stream.Offer(e).1.Enqueued? && b.sub.droppedCount == 0
    ensures Balanced(After(b, Publish(e)), x)
  {
    OfferConserves(b.sub.stream, e, x);
    Snoc(b.admitted, e, x);
  }

  lemma PublishConserves(b: Books, e: Event, x: Event)
    requires Balanced(b, x) && b.sub.stream.Valid() && !b.sub.stream.closed && b.sub.filter.Admits(e)
    ensures Balanced(After(b, Publish(e)), x)
  {
    OfferValid(b.sub.stream, e);
    if b.sub.stream.Offer(e).1.Dropped? {
      EvictingConserves(b, e, x);
    } else if b.sub.droppedCount > 0 {
      MarkingConserves(b, e, x);
    } else {
      PlainConserves(b, e, x);
    }
  }

  lemma CopiesConcat(a: seq<Event>, b: seq<Event>, x: Event)
    ensures Copies(a + b, x) == Copies(a, x) + Copies(b, x)
  {}

  lemma ConservedStep(b: Books, step: Step)
    requires Conserved(b) && b.sub.stream.Valid()
    ensures Conserved(After(b, step))
  {
    forall x: Event
      ensures Balanced(After(b, step), x)
    {
      assert Balanced(b, x);
      match step
      case Read => NextConserves(b.sub.stream, x);
      case Publish(e) =>
        if b.sub.filter.Admits(e) && !b.sub.stream.closed {
          PublishConserves(b, e, x);
        }
    }
  }

  lemma ReportedSnoc(markers: seq<Event>, s: Subscriber)
    ensures Reported(markers + [Marker(s)]) == Reported(markers) + s.droppedCount
  {
    assert (markers + [Marker(s)])[..|markers|] == markers;
  }

  lemma TalliedPublish(b: Books, e: Event)
    requires Tallied(b) && !b.sub.stream.closed && b.sub.filter.Admits(e)
    ensures Tallied(After(b, Publish(e)))
  {
    var s := b.sub;
    OfferValid(s.stream, e);
    if s.stream.Offer(e).1.Enqueued? && s.droppedCount > 0 {
      OfferValid(s.stream.Offer(e).0, Marker(s));
      ReportedSnoc(b.markers, s);
    }
  }

  lemma TalliedStep(b: Books, step: Step)
    requires Tallied(b)
    ensures Tallied(After(b, step))
  {
    match step
    case Read =>
    case Publish(e) =>
      if b.sub.filter.Admits(e) && !b.sub.stream.closed {
        TalliedPublish(b, e);
      }
  }

  /** Per-subscriber accounting over any run. */
  lemma {:induction false} NothingLostUnaccounted(b: Books, steps: seq<Step>)
    requires Conserved(b) && Tallied(b)
    ensures Conserved(Run(b, steps)) && Tallied(Run(b, steps))
    decreases |steps|
  {
    if steps != [] {
      ConservedStep(b, steps[0]);
      TalliedStep(b, steps[0]);
      NothingLostUnaccounted(After(b, steps[0]), steps[1..]);
    }
  }

  lemma AccountingFromTheStart(filter: Filter, limit: nat, steps: seq<Step>)
    requires limit >= 1
    ensures var b := Run(Open(Fresh(filter, Stream(limit, false, false, [], []))), steps);
            Conserved(b) && Tallied(b)
  {
    var start := Open(Fresh(filter, Stream(limit, false, false, [], [])));
    assert Conserved(start) && Tallied(start);
    NothingLostUnaccounted(start, steps);
  }

  /** The newest admitted event is with the consumer or in the queue after its own
      publish, except in the one case where the marker's yield evicts it. */
  lemma NewestIsKept(s: Subscriber, e: Event)
    requires s.stream.Valid() && !s.stream.closed && s.filter.Admits(e) && e.sequence > 0
    requires e !in s.stream.Flow()
    ensures Deliver(s, e).Some? &&
            (e in Deliver(s, e).value.stream.Flow() <==>
             !(s.stream.limit == 1 && s.droppedCount > 0 && s.stream.queue == [] && !s.stream.waiting))
  {
    var t, m := s.stream.Offer(e).0, Marker(s);
    assert m != e;
    if s.stream.waiting {
      assert t.received[|s.stream.received|] == e;
      assert t.Offer(m).0.received == t.received;
    } else {
      assert t.queue[|t.queue| - 1] == e;
      var u := t.Offer(m).0;
      if s.droppedCount > 0 && |s.stream.queue| < s.stream.limit && t.limit > 1 {
        assert u.queue[|u.queue| - 2] == e;
      }
    }
  }

  // Order: what reaches the consumer never goes back.

  /** The flow's real events are in publication order, all older than `next`. */
  ghost predicate Ordered(flow: seq<Event>, next: nat) {
    && next > 0
    && (forall i | 0 <= i < |flow| :: flow[i].sequence < next)
    && (forall i, j | 0 <= i < j < |flow| && flow[i].sequence > 0 && flow[j].sequence > 0 ::
          flow[i].sequence < flow[j].sequence)
  }

  lemma OrderedDrop(flow: seq<Event>, k: nat, next: nat)
    requires Ordered(flow, next) && k < |flow|
    ensures Ordered(flow[..k] + flow[k + 1..], next)
  {
    var less := flow[..k] + flow[k + 1..];
    forall i | 0 <= i < |less|
      ensures less[i] == flow[if i < k then i else i + 1]
    {}
  }

  lemma OrderedSnoc(flow: seq<Event>, e: Event, next: nat)
    requires Ordered(flow, next) && (e.sequence == 0 || e.sequence >= next)
    ensures Ordered(flow + [e], if e.sequence == 0 then next else e.sequence + 1)
  {}

  lemma OfferFlow(s: Stream, e: Event)
    requires s.Valid() && !s.closed
    ensures var long := s.Flow() + [e];
            s.Offer(e).0.Flow() ==
            if s.Offer(e).1.Dropped? then long[..|s.received|] + long[|s.received| + 1..] else long
  {
    if s.waiting {
      assert s.received + [e] + [] == s.Flow() + [e];
    } else if |s.queue| == s.limit {
      var long, n := s.Flow() + [e], |s.received|;
      assert long[..n] == s.received;
      assert long[n + 1..] == s.queue[1..] + [e];
    } else {
      assert s.received + (s.queue + [e]) == s.Flow() + [e];
    }
  }

  lemma OfferOrdered(s: Stream, e: Event, next: nat)
    requires s.Valid() && !s.closed && Ordered(s.Flow(), next) && (e.sequence == 0 || e.sequence >= next)
    ensures Ordered(s.Offer(e).0.Flow(), if e.sequence == 0 then next else e.sequence + 1)
  {
    OfferFlow(s, e);
    OrderedSnoc(s.Flow(), e, next);
    OrderedDrop(s.Flow() + [e], |s.received|, if e.sequence == 0 then next else e.sequence + 1);
  }

  lemma NextFlow(s: Stream)
    ensures s.Next().Flow() == s.Flow()
  {
    if s.queue != [] {
      assert s.queue == [s.queue[0]] + s.queue[1..];
    }
  }

  lemma DeliverOrdered(s: Subscriber, e: Event)
    requires s.stream.Valid() && Ordered(s.stream.Flow(), e.sequence)
    ensures Deliver(s, e).Some? ==>
              Deliver(s, e).value.stream.Valid() && Ordered(Deliver(s, e).value.stream.Flow(), e.sequence + 1)
  {
    if s.filter.Admits(e) && !s.stream.closed {
      OfferValid(s.stream, e);
      OfferOrdered(s.stream, e, e.sequence);
      OfferValid(s.stream.Offer(e).0, Marker(s));
      OfferOrdered(s.stream.Offer(e).0, Marker(s), e.sequence + 1);
    }
  }

  /** The bus stamps events 1, 2, 3, … */
  predicate Stamped(steps: seq<Step>, next: nat) {
    steps == [] ||
    match steps[0]
    case Read => Stamped(steps[1..], next)
    case Publish(e) => e.sequence == next && Stamped(steps[1..], next + 1)
  }

  function Published(steps: seq<Step>): nat {
    if steps == [] then 0 else Published(steps[1..]) + if steps[0].Publish? then 1 else 0
  }

  lemma StepOrdered(b: Books, step: Step, next: nat)
    requires b.sub.stream.Valid() && Ordered(b.sub.stream.Flow(), next)
    requires step.Publish? ==> step.event.sequence == next
    ensures After(b, step).sub.stream.Valid()
    ensures Ordered(After(b, step).sub.stream.Flow(), next + if step.Publish? then 1 else 0)
  {
    if step.Read? {
      NextFlow(b.sub.stream);
    } else {
      DeliverOrdered(b.sub, step.event);
    }
  }

  /** Whatever is evicted, the consumer sees real events in publication order, each at
      most once. */
  lemma {:induction false} ConsumerSeesOrder(b: Books, steps: seq<Step>, next: nat)
    requires b.sub.stream.Valid() && Ordered(b.sub.stream.Flow(), next) && Stamped(steps, next)
    ensures Ordered(Run(b, steps).sub.stream.Flow(), next + Published(steps))
    decreases |steps|
  {
    if steps != [] {
      StepOrdered(b, steps[0], next);
      ConsumerSeesOrder(After(b, steps[0]), steps[1..], next + if steps[0].Publish? then 1 else 0);
    }
  }

  // ---- what is delivered ----------------------------------------------------------

  /** A filter hides an event completely; a closed stream ends the subscription. */
  lemma FilteredOrClosed(s: Subscriber, e: Event)
    ensures !s.filter.Admits(e) ==> Deliver(s, e) == Some(s)
    ensures s.filter.Admits(e) && s.stream.closed ==> Deliver(s, e) == None
  {}

  /** With room, an admitted event comes next, and after it the marker that was owed. */
  lemma DeliveredInOrder(s: Subscriber, e: Event)
    requires s.stream.Valid() && !s.stream.closed && s.filter.Admits(e)
    requires s.stream.waiting || |s.stream.queue| + (if s.droppedCount > 0 then 2 else 1) <= s.stream.limit
    ensures var z := Deliver(s, e);
            && z.Some? && z.value.droppedCount == 0 && z.value.filter == s.filter
            && z.value.stream.Flow() == s.stream.Flow() + [e] + (if s.droppedCount > 0 then [Marker(s)] else [])
  {
    OfferValid(s.stream, e);
    OfferFlow(s.stream, e);
    Neutral(s.stream.Flow() + [e]);
    if s.droppedCount > 0 {
      OfferFlow(s.stream.Offer(e).0, Marker(s));
    }
  }

  /** Without room, the oldest queued goes, and its number is remembered. */
  lemma EvictedAndCounted(s: Subscriber, e: Event)
    requires s.stream.Valid() && !s.stream.closed && s.filter.Admits(e)
    requires !s.stream.waiting && |s.stream.queue| == s.stream.limit
    ensures var z := Deliver(s, e);
            && z.Some? && z.value.stream.queue == s.stream.queue[1..] + [e]
            && z.value.stream.received == s.stream.received
            && z.value.droppedCount == s.droppedCount + 1 && z.value.lastDropped == s.stream.queue[0].sequence
            && z.value.firstDropped == (if s.droppedCount == 0 then s.stream.queue[0].sequence else s.firstDropped)
            && z.value.filter == s.filter
  {}

  ghost predicate OnlyAdmitted(s: Subscriber) {
    forall i | 0 <= i < |s.stream.Flow()| :: s.filter.Admits(s.stream.Flow()[i])
  }

  lemma StepAdmits(b: Books, step: Step)
    requires b.sub.stream.Valid() && OnlyAdmitted(b.sub)
    ensures After(b, step).sub.stream.Valid() && OnlyAdmitted(After(b, step).sub)
    ensures After(b, step).sub.filter == b.sub.filter
  {
    var s := b.sub.stream;
    match step
    case Read =>
      NextValid(s);
      NextFlow(s);
    case Publish(e) =>
      FilteredOrClosed(b.sub, e);
      if b.sub.filter.Admits(e) && !s.closed {
        OfferValid(s, e);
        OfferAdmits(s, e, b.sub.filter);
        OfferValid(s.Offer(e).0, Marker(b.sub));
        OfferAdmits(s.Offer(e).0, Marker(b.sub), b.sub.filter);
      }
  }

  lemma OfferAdmits(s: Stream, e: Event, filter: Filter)
    requires s.Valid() && !s.closed && filter.Admits(e)
    requires forall i | 0 <= i < |s.Flow()| :: filter.Admits(s.Flow()[i])
    ensures var t := s.Offer(e).0; forall i | 0 <= i < |t.Flow()| :: filter.Admits(t.Flow()[i])
  {
    OfferFlow(s, e);
    var long := s.Flow() + [e];
    assert forall i | 0 <= i < |long| :: filter.Admits(long[i]);
  }

  /** Over every run the consumer is handed, and has queued, nothing its filter hides. */
  lemma {:induction false} ConsumerSeesAdmitted(b: Books, steps: seq<Step>)
    requires b.sub.stream.Valid() && OnlyAdmitted(b.sub)
    ensures OnlyAdmitted(Run(b, steps).sub) && Run(b, steps).sub.filter == b.sub.filter
    decreases |steps|
  {
    if steps != [] {
      StepAdmits(b, steps[0]);
      ConsumerSeesAdmitted(After(b, steps[0]), steps[1..]);
    }
  }

  // ---- what the counts leave out --------------------------------------------------

  /** This step issues a marker while exactly one slot is left: the event takes it, and the
      marker then evicts the oldest. */
  predicate Tight(b: Books, step: Step) {
    var s := b.sub;
    step.Publish? && s.filter.Admits(step.event) && !s.stream.closed && s.droppedCount > 0 &&
    !s.stream.waiting && |s.stream.queue| + 1 == s.stream.limit
  }

  lemma MarkerEvicts(s: Subscriber, e: Event)
    requires s.stream.Valid() && !s.stream.closed && s.stream.Offer(e).1.Enqueued?
    ensures Victims(s.stream.Offer(e).0, Marker(s)) != [] <==>
              !s.stream.waiting && |s.stream.queue| + 1 == s.stream.limit
    ensures |Victims(s.stream.Offer(e).0, Marker(s))| <= 1
  {}

  lemma TightStep(b: Books, step: Step)
    requires b.sub.stream.Valid()
    ensures After(b, step).sub.stream.Valid()
    ensures |After(b, step).uncounted| == |b.uncounted| + if Tight(b, step) then 1 else 0
  {
    if step.Read? {
      NextValid(b.sub.stream);
    } else if b.sub.filter.Admits(step.event) && !b.sub.stream.closed {
      OfferValid(b.sub.stream, step.event);
      if b.sub.stream.Offer(step.event).1.Enqueued? {
        OfferValid(b.sub.stream.Offer(step.event).0, Marker(b.sub));
        MarkerEvicts(b.sub, step.event);
      }
    }
  }

  lemma NextValid(s: Stream)
    requires s.Valid()
    ensures s.Next().Valid() && s.Next().closed == s.closed
  {}

  /** How many markers of a run are issued with one slot left. */
  function TightSteps(b: Books, steps: seq<Step>): nat
    decreases |steps|
  {
    if steps == [] then 0
    else (if Tight(b, steps[0]) then 1 else 0) + TightSteps(After(b, steps[0]), steps[1..])
  }

  /** Exactly one event goes uncounted for every marker issued with one slot left; so every
      loss is counted if and only if no marker ever is. */
  lemma {:induction false} UncountedExactly(b: Books, steps: seq<Step>)
    requires b.sub.stream.Valid()
    ensures |Run(b, steps).uncounted| == |b.uncounted| + TightSteps(b, steps)
    decreases |steps|
  {
    if steps != [] {
      TightStep(b, steps[0]);
      UncountedExactly(After(b, steps[0]), steps[1..]);
    }
  }

  // ---- what a marker's range says -------------------------------------------------

  /** The burst a pending marker will report, then the queue, in order. */
  ghost predicate BurstOrdered(b: Books, next: nat) {
    Ordered(b.burst + b.sub.stream.queue, next)
  }

  lemma OrderedTail(flow: seq<Event>, k: nat, next: nat)
    requires Ordered(flow, next) && k <= |flow|
    ensures Ordered(flow[k..], next)
  {}

  lemma OrderedLater(flow: seq<Event>, next: nat, later: nat)
    requires Ordered(flow, next) && next <= later
    ensures Ordered(flow, later)
  {}

  lemma EvictingKeepsOrder(b: Books, e: Event)
    requires b.sub.stream.Valid() && !b.sub.stream.closed && b.sub.filter.Admits(e) && e.sequence > 0
    requires b.sub.stream.Offer(e).1.Dropped? && BurstOrdered(b, e.sequence)
    ensures BurstOrdered(After(b, Publish(e)), e.sequence + 1)
  {
    var q := b.sub.stream.queue;
    OrderedSnoc(b.burst + q, e, e.sequence);
    assert (b.burst + [q[0]]) + (q[1..] + [e]) == b.burst + q + [e];
  }

  lemma OfferQueueOrdered(s: Stream, e: Event, next: nat)
    requires s.Valid() && !s.closed && Ordered(s.queue, next) && (e.sequence == 0 || e.sequence == next)
    ensures Ordered(s.Offer(e).0.queue, if e.sequence == 0 then next else next + 1)
  {
    var later := if e.sequence == 0 then next else next + 1;
    OrderedSnoc(s.queue, e, next);
    if s.waiting {
      OrderedTail(s.queue + [e], |s.queue + [e]|, later);
    } else if |s.queue| == s.limit {
      OrderedTail(s.queue + [e], 1, later);
      TailOfConcat(s.queue, [e]);
    }
  }

  lemma MarkingKeepsOrder(b: Books, e: Event)
    requires b.sub.stream.Valid() && !b.sub.stream.closed && b.sub.filter.Admits(e) && e.sequence > 0
    requires b.sub.stream.Offer(e).1.Enqueued? && b.sub.droppedCount > 0 && BurstOrdered(b, e.sequence)
    ensures BurstOrdered(After(b, Publish(e)), e.sequence + 1)
  {
    var q := b.sub.stream.queue;
    OrderedTail(b.burst + q, |b.burst|, e.sequence);
    assert (b.burst + q)[|b.burst|..] == q;
    OfferValid(b.sub.stream, e);
    OfferQueueOrdered(b.sub.stream, e, e.sequence);
    OfferQueueOrdered(b.sub.stream.Offer(e).0, Marker(b.sub), e.sequence + 1);
    Neutral(After(b, Publish(e)).sub.stream.queue);
  }

  lemma PlainKeepsOrder(b: Books, e: Event)
    requires b.sub.stream.Valid() && !b.sub.stream.closed && b.sub.filter.Admits(e) && e.sequence > 0
    requires b.sub.stream.Offer(e).1.Enqueued? && b.sub.droppedCount == 0 && BurstOrdered(b, e.sequence)
    ensures BurstOrdered(After(b, Publish(e)), e.sequence + 1)
  {
    OrderedSnoc(b.burst + b.sub.stream.queue, e, e.sequence);
    Assoc(b.burst, b.sub.stream.queue, [e]);
    OrderedLater(b.burst + b.sub.stream.queue, e.sequence, e.sequence + 1);
  }

  lemma ReadKeepsOrder(b: Books, next: nat)
    requires BurstOrdered(b, next)
    ensures BurstOrdered(After(b, Read), next)
  {
    if b.sub.stream.queue != [] {
      OrderedDrop(b.burst + b.sub.stream.queue, |b.burst|, next);
      var all := b.burst + b.sub.stream.queue;
      assert all[..|b.burst|] + all[|b.burst| + 1..] == b.burst + b.sub.stream.queue[1..];
    }
  }

  lemma StepKeepsOrder(b: Books, step: Step, next: nat)
    requires b.sub.stream.Valid() && BurstOrdered(b, next)
    requires step.Publish? ==> step.event.sequence == next
    ensures After(b, step).sub.stream.Valid()
    ensures BurstOrdered(After(b, step), next + if step.Publish? then 1 else 0)
  {
    TightStep(b, step);
    match step
    case Read => ReadKeepsOrder(b, next);
    case Publish(e) =>
      if b.sub.filter.Admits(e) && !b.sub.stream.closed {
        OfferValid(b.sub.stream, e);
        if b.sub.stream.Offer(e).1.Dropped? {
          EvictingKeepsOrder(b, e);
        } else if b.sub.droppedCount > 0 {
          MarkingKeepsOrder(b, e);
        } else {
          PlainKeepsOrder(b, e);
        }
      } else {
        OrderedLater(b.burst + b.sub.stream.queue, next, next + 1);
      }
  }

  function Real(es: seq<Event>): nat {
    if es == [] then 0 else Real(es[1..]) + if es[0].sequence > 0 then 1 else 0
  }

  lemma {:induction false} RealCount(es: seq<Event>)
    ensures Real(es) <= |es| && (Real(es) == |es| <==> forall e | e in es :: e.sequence > 0)
  {
    if es != [] {
      RealCount(es[1..]);
      assert forall e | e in es :: e == es[0] || e in es[1..];
    }
  }

  /** The gap the pending marker would report is exactly the events of the burst: as many,
      the first of them its start, the last its end, and the others in between. */
  ghost predicate NamesTheGap(b: Books)
    requires b.burst != []
  {
    var first, last := b.burst[0].sequence, b.burst[|b.burst| - 1].sequence;
    && Marker(b.sub) == Event("events.dropped", 0, None, Gap(Real(b.burst), first, last))
    && first > 0 && last > 0
    && forall e | e in b.burst :: first <= e.sequence <= last
  }

  /** An evicting publish finds a marker at the head of the queue. */
  predicate EvictsMarker(b: Books, step: Step) {
    var s := b.sub;
    step.Publish? && s.filter.Admits(step.event) && s.stream.Offer(step.event).1.Dropped? &&
    s.stream.queue != [] && s.stream.queue[0].sequence == 0
  }

  /** This publish enqueues its event and settles the owed marker: a new burst can begin. */
  predicate Settles(b: Books, step: Step) {
    var s := b.sub;
    step.Publish? && s.filter.Admits(step.event) && s.stream.Offer(step.event).1.Enqueued? && s.droppedCount > 0
  }

  /** Whether, since the last marker was issued, an eviction hit an earlier marker. */
  function Blurred(b: Books, steps: seq<Step>, blurred: bool): bool
    decreases |steps|
  {
    if steps == [] then blurred
    else Blurred(After(b, steps[0]), steps[1..], !Settles(b, steps[0]) && (blurred || EvictsMarker(b, steps[0])))
  }

  ghost predicate HasMarker(b: Books) {
    exists e | e in b.burst :: e.sequence == 0
  }

  lemma BlurStep(b: Books, step: Step)
    requires Tallied(b) && (step.Publish? ==> step.event.sequence > 0)
    ensures HasMarker(After(b, step)) <==> !Settles(b, step) && (HasMarker(b) || EvictsMarker(b, step))
  {
    var z := After(b, step);
    if step.Publish? && b.sub.filter.Admits(step.event) && !b.sub.stream.closed {
      OfferValid(b.sub.stream, step.event);
      var outcome := b.sub.stream.Offer(step.event).1;
      if outcome.Dropped? {
        assert z.burst == b.burst + [outcome.evicted];
        assert outcome.evicted in z.burst;
        assert forall e | e in b.burst :: e in z.burst;
      }
    }
  }

  lemma BurstIsNamed(b: Books, next: nat)
    requires Tallied(b) && BurstOrdered(b, next) && b.burst != []
    ensures NamesTheGap(b) <==> !HasMarker(b)
  {
    RealCount(b.burst);
    if !HasMarker(b) {
      forall e | e in b.burst
        ensures b.burst[0].sequence <= e.sequence <= b.burst[|b.burst| - 1].sequence
      {
        var i :| 0 <= i < |b.burst| && b.burst[i] == e;
        BurstIndex(b, next, i);
      }
      assert b.burst[0] in b.burst && b.burst[|b.burst| - 1] in b.burst;
    }
  }

  lemma BurstIndex(b: Books, next: nat, i: nat)
    requires BurstOrdered(b, next) && i < |b.burst| && !HasMarker(b)
    ensures b.burst[0].sequence <= b.burst[i].sequence <= b.burst[|b.burst| - 1].sequence
  {
    var all := b.burst + b.sub.stream.queue;
    assert all[0] == b.burst[0] && all[i] == b.burst[i] && all[|b.burst| - 1] == b.burst[|b.burst| - 1];
    assert b.burst[0] in b.burst && b.burst[i] in b.burst && b.burst[|b.burst| - 1] in b.burst;
  }

  lemma {:induction false} BlurRun(b: Books, steps: seq<Step>, next: nat)
    requires Tallied(b) && BurstOrdered(b, next) && Stamped(steps, next)
    ensures var z := Run(b, steps);
            Tallied(z) && BurstOrdered(z, next + Published(steps)) && (HasMarker(z) <==> Blurred(b, steps, HasMarker(b)))
    decreases |steps|
  {
    if steps != [] {
      TalliedStep(b, steps[0]);
      StepKeepsOrder(b, steps[0], next);
      BlurStep(b, steps[0]);
      BlurRun(After(b, steps[0]), steps[1..], next + if steps[0].Publish? then 1 else 0);
    }
  }

  /** Over every run from a fresh subscription: while a marker is owed, what it will report
      is the gap, exactly, if and only if no eviction since the last marker found a marker at
      the head of the queue. */
  lemma RangeNamesTheGap(filter: Filter, limit: nat, steps: seq<Step>)
    requires limit >= 1 && Stamped(steps, 1)
    ensures var b := Open(Fresh(filter, Stream(limit, false, false, [], [])));
            var z := Run(b, steps);
            z.burst != [] ==> (NamesTheGap(z) <==> !Blurred(b, steps, false))
  {
    var b := Open(Fresh(filter, Stream(limit, false, false, [], [])));
    assert Tallied(b) && BurstOrdered(b, 1) && !HasMarker(b);
    BlurRun(b, steps, 1);
    if Run(b, steps).burst != [] {
      BurstIsNamed(Run(b, steps), 1 + Published(steps));
    }
  }

  lemma MarkerFirst(b: Books)
    requires b.burst != [] && b.burst[0].sequence == 0
    ensures !NamesTheGap(b)
  {}

  /** A run that gets there, with the shortest queue: the marker takes the place of the event
      it came with, and is then evicted in turn. */
  lemma MarkerEvictionBlursTheRange(filter: Filter, p1: Event, p2: Event, p3: Event, p4: Event)
    requires p1.sequence == 1 && p2.sequence == 2 && p3.sequence == 3 && p4.sequence == 4
    requires filter.Admits(p1) && filter.Admits(p2) && filter.Admits(p3) && filter.Admits(p4)
    ensures var steps := [Publish(p1), Publish(p2), Read, Publish(p3), Publish(p4)];
            var z := Run(Open(Fresh(filter, Stream(1, false, false, [], []))), steps);
            z.sub.droppedCount == 1 && z.sub.lastDropped == 0 && |z.burst| == 1 && !NamesTheGap(z) && z.uncounted == [p3]
  {
    var b0 := Open(Fresh(filter, Stream(1, false, false, [], [])));
    var steps := [Publish(p1), Publish(p2), Read, Publish(p3), Publish(p4)];
    var b1 := After(b0, Publish(p1));
    assert b1.sub.stream == Stream(1, false, false, [], [p1]);
    var b2 := After(b1, Publish(p2));
    assert b2.sub.stream == Stream(1, false, false, [], [p2]) && b2.burst == [p1];
    var b3 := After(b2, Read);
    assert b3.sub.stream == Stream(1, false, false, [p2], []) && b3.sub.droppedCount == 1;
    var m := Marker(b3.sub);
    var b4 := After(b3, Publish(p3));
    assert b4.sub.stream == Stream(1, false, false, [p2], [m]) && b4.uncounted == [p3] && b4.burst == [];
    var b5 := After(b4, Publish(p4));
    assert b5.burst == [m] && b5.uncounted == [p3];
    MarkerFirst(b5);
    var s1, s2, s3, s4 := steps[1..], steps[1..][1..], steps[1..][1..][1..], steps[1..][1..][1..][1..];
    assert s1[0] == steps[1] && s2[0] == steps[2] && s3[0] == steps[3] && s4 == [steps[4]] && s4[1..] == [];
    assert Run(b4, s4) == Run(b5, []) == b5;
    assert Run(b2, s2) == Run(b3, s3) == Run(b4, s4);
    assert Run(b0, steps) == Run(b1, s1) == Run(b2, s2);
  }
}
