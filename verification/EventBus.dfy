/**
 The event bus: a replay ring with a count bound and a byte bound, kept as an array with
 holes at the front, and the subscribers every event is delivered to.
*/
module EventBuses {
  import opened Wrappers
  import opened Bytes
  import opened EventStreams

  datatype Archived = Archived(name: string, sequence: nat, session: Option<nat>, encoded: seq<Byte>) {
    // Names are ASCII, one byte a character.
    function StorageBytes(): nat { |name| + |encoded| + 16 }

    /** The event a replay hands out. */
    function Replayed(): Event { Event(name, sequence, session, Json(Some(encoded))) }
  }

  function Total(es: seq<Archived>): nat {
    if es == [] then 0 else es[0].StorageBytes() + Total(es[1..])
  }

  predicate Fits(es: seq<Archived>, count: nat, bytes: nat) {
    |es| <= count && Total(es) <= bytes
  }

  /** The longest suffix of `es` that fits both bounds. */
  function Retained(es: seq<Archived>, count: nat, bytes: nat): seq<Archived> {
    if Fits(es, count, bytes) || es == [] then es
    else Retained(es[1..], count, bytes)
  }

  lemma {:induction false} RetainedIsSuffix(es: seq<Archived>, count: nat, bytes: nat)
    ensures var kept := Retained(es, count, bytes); |kept| <= |es| && kept == es[|es| - |kept|..]
  {
    if !Fits(es, count, bytes) && es != [] {
      RetainedIsSuffix(es[1..], count, bytes);
    }
  }

  lemma {:induction false} RetainedIsLongest(es: seq<Archived>, count: nat, bytes: nat, from: nat)
    requires from <= |es| && Fits(es[from..], count, bytes)
    ensures Fits(Retained(es, count, bytes), count, bytes)
    ensures |es| - from <= |Retained(es, count, bytes)|
  {
    if from == 0 {
      assert es[0..] == es;
    } else if !Fits(es, count, bytes) {
      assert es[1..][from - 1..] == es[from..];
      RetainedIsLongest(es[1..], count, bytes, from - 1);
    }
  }

  lemma {:induction false} TotalSnoc(es: seq<Archived>, e: Archived)
    ensures Total(es + [e]) == Total(es) + e.StorageBytes()
  {
    if es != [] {
      TotalSnoc(es[1..], e);
      assert (es + [e])[1..] == es[1..] + [e];
    } else {
      assert ([e])[1..] == [];
    }
  }

  /** Only what was kept matters for what is kept next. */
  lemma {:induction false} RetainedSnoc(es: seq<Archived>, e: Archived, count: nat, bytes: nat)
    ensures Retained(es + [e], count, bytes) == Retained(Retained(es, count, bytes) + [e], count, bytes)
  {
    if !Fits(es, count, bytes) && es != [] {
      assert (es + [e])[1..] == es[1..] + [e];
      TotalSnoc(es, e);
      RetainedSnoc(es[1..], e, count, bytes);
    }
  }

  predicate Encodes(params: Params) { params.Json? && params.encoding.Some? }

  /** What is kept of an event, if the encoder accepts it. */
  function Entry(e: Event): seq<Archived> {
    if e.params.Json? && e.params.encoding.Some?
    then [Archived(e.name, e.sequence, e.session, e.params.encoding.value)] else []
  }

  /** What a subscription asks to see again, in order. */
  function Replay(live: seq<Archived>, since: nat, filter: Filter): seq<Event> {
    if live == [] then []
    else
      var rest := Replay(live[1..], since, filter);
      if live[0].sequence > since && filter.Admits(live[0].Replayed()) then [live[0].Replayed()] + rest else rest
  }

  /** A replay holds exactly the live events numbered above `since` that the filter admits. */
  lemma {:induction false} ReplayHolds(live: seq<Archived>, since: nat, filter: Filter, e: Event)
    ensures e in Replay(live, since, filter) <==>
              exists a | a in live :: a.sequence > since && filter.Admits(e) &&
                e == Event(a.name, a.sequence, a.session, Json(Some(a.encoded)))
  {
    if live != [] {
      ReplayHolds(live[1..], since, filter, e);
      assert forall a | a in live :: a == live[0] || a in live[1..];
    }
  }

  ghost predicate Climbs(es: seq<Event>, from: int) {
    (forall i | 0 <= i < |es| :: from < es[i].sequence) &&
    (forall i, j | 0 <= i < j < |es| :: es[i].sequence < es[j].sequence)
  }

  ghost predicate LiveClimbs(live: seq<Archived>, from: int) {
    (forall i | 0 <= i < |live| :: from < live[i].sequence) &&
    (forall i, j | 0 <= i < j < |live| :: live[i].sequence < live[j].sequence)
  }

  lemma ClimbsCons(e: Event, es: seq<Event>, from: int)
    requires from < e.sequence && Climbs(es, e.sequence)
    ensures Climbs([e] + es, from)
  {}

  /** In the order of the ring, each once. */
  lemma {:induction false} ReplayKeepsOrder(live: seq<Archived>, since: nat, filter: Filter, from: int)
    requires LiveClimbs(live, from)
    ensures Climbs(Replay(live, since, filter), from)
  {
    if live != [] {
      assert LiveClimbs(live[1..], live[0].sequence);
      ReplayKeepsOrder(live[1..], since, filter, live[0].sequence);
      ClimbsCons(live[0].Replayed(), Replay(live[1..], since, filter), from);
    }
  }

  function OfferAll(s: Stream, es: seq<Event>): Stream
    decreases |es|
  {
    if es == [] then s else OfferAll(s.Offer(es[0]).0, es[1..])
  }

  lemma {:induction false} ReplayBound(live: seq<Archived>, since: nat, filter: Filter)
    ensures |Replay(live, since, filter)| <= |live|
  {
    if live != [] {
      ReplayBound(live[1..], since, filter);
    }
  }

  /** A replay that fits is queued whole. */
  lemma {:induction false} OfferAllQueues(s: Stream, es: seq<Event>)
    requires s.Valid() && !s.closed && !s.waiting && |s.queue| + |es| <= s.limit
    ensures OfferAll(s, es) == s.(queue := s.queue + es)
    decreases |es|
  {
    if es == [] {
      assert s.queue + [] == s.queue;
    } else {
      OfferAllQueues(s.Offer(es[0]).0, es[1..]);
      assert s.queue + [es[0]] + es[1..] == s.queue + es;
    }
  }

  /** With the default bound a replay can never overflow the queue. */
  lemma ReplayNeverDrops(live: seq<Archived>, since: nat, filter: Filter, limit: nat)
    requires 1 <= limit && |live| <= limit
    ensures OfferAll(Stream(limit, false, false, [], []), Replay(live, since, filter)).queue
            == Replay(live, since, filter)
  {
    ReplayBound(live, since, filter);
    OfferAllQueues(Stream(limit, false, false, [], []), Replay(live, since, filter));
    assert [] + Replay(live, since, filter) == Replay(live, since, filter);
  }

  const COMPACT_AT := 1024

  class EventBus {
    var nextSeq: nat
    var ring: seq<Option<Archived>>
    var ringStart: nat
    var ringBytes: nat
    const ringCapacity: nat
    const ringByteCapacity: nat
    const subscriberCapacity: nat
    var subscribers: map<nat, Subscriber>

    ghost var archived: seq<Archived>
    ghost var shifted: nat

    /** What the slots from `ringStart` on hold. */
    ghost var live: seq<Archived>

    ghost predicate RingValid()
      reads this`ring, this`ringStart, this`live, this`ringBytes, this`archived, this`shifted
    {
      && Holed(ring, ringStart, live)
      && ringBytes == Total(live)
      && live == Retained(archived, ringCapacity, ringByteCapacity)
      && shifted + ringStart <= |archived| - |live|
    }

    ghost predicate Valid()
      reads this
    {
      RingValid() && nextSeq >= 1 && subscriberCapacity >= 1 && StreamsValid(subscribers)
    }

    constructor (ringCapacity: int, ringByteCapacity: int, subscriberCapacity: Option<int>)
      ensures Valid() && archived == [] && nextSeq == 1 && subscribers == map[]
      ensures this.ringCapacity == (if ringCapacity < 0 then 0 else ringCapacity)
      ensures this.ringByteCapacity == (if ringByteCapacity < 0 then 0 else ringByteCapacity)
      ensures subscriberCapacity.None? ==> this.subscriberCapacity >= this.ringCapacity
      ensures subscriberCapacity.Some? && subscriberCapacity.value >= 1 ==>
                this.subscriberCapacity == subscriberCapacity.value
    {
      this.ringCapacity := if ringCapacity < 0 then 0 else ringCapacity;
      this.ringByteCapacity := if ringByteCapacity < 0 then 0 else ringByteCapacity;
      var bound := if subscriberCapacity.Some? then subscriberCapacity.value
                   else (if ringCapacity < 1 then 1 else ringCapacity) * 2;
      this.subscriberCapacity := if bound < 1 then 1 else bound;
      nextSeq, ring, ringStart, ringBytes, subscribers := 1, [], 0, 0, map[];
      archived, live, shifted := [], [], 0;
    }

    /** Keeps the new event and evicts the oldest until both bounds hold again. */
    method Archive(event: Event)
      requires RingValid()
      modifies this`ring, this`ringStart, this`ringBytes, this`live, this`archived, this`shifted
      ensures RingValid()
      ensures if ringCapacity > 0 && ringByteCapacity > 0 && Encodes(event.params)
              then archived == old(archived) +
                     [Archived(event.name, event.sequence, event.session, event.params.encoding.value)]
              else archived == old(archived)
    {
      if ringCapacity == 0 || ringByteCapacity == 0 || !event.params.Json? || event.params.encoding.None? {
        return;
      }
      var entry := Archived(event.name, event.sequence, event.session, event.params.encoding.value);
      Push(entry);
      while |ring| - ringStart > ringCapacity || ringBytes > ringByteCapacity
        invariant Evicting() && archived == old(archived) + [entry]
        decreases |ring| - ringStart
      {
        EvictOldest();
      }
      Compact();
    }

    /** The state between the append and the end of the eviction loop. */
    ghost predicate Evicting()
      reads this`ring, this`ringStart, this`live, this`ringBytes, this`archived, this`shifted
    {
      && Holed(ring, ringStart, live)
      && ringBytes == Total(live)
      && Retained(live, ringCapacity, ringByteCapacity) == Retained(archived, ringCapacity, ringByteCapacity)
      && shifted + ringStart <= |archived| - |live|
    }

    method Push(entry: Archived)
      requires RingValid()
      modifies this`ring, this`ringBytes, this`live, this`archived
      ensures Evicting() && archived == old(archived) + [entry]
    {
      RetainedSnoc(archived, entry, ringCapacity, ringByteCapacity);
      TotalSnoc(live, entry);
      HoledPush(ring, ringStart, live, entry);
      ring := ring + [Some(entry)];
      ringBytes := ringBytes + entry.StorageBytes();
      archived, live := archived + [entry], live + [entry];
    }

    method EvictOldest()
      requires Evicting() && !Fits(live, ringCapacity, ringByteCapacity)
      modifies this`ring, this`ringStart, this`ringBytes, this`live
      ensures Evicting() && |ring| == old(|ring|) && ringStart == old(ringStart) + 1
    {
      assert live != [];
      HoledEvict(ring, ringStart, live);
      var oldest := ring[ringStart];
      if oldest.Some? {
        ringBytes := ringBytes - oldest.value.StorageBytes();
        ring := ring[ringStart := None];
      }
      ringStart := ringStart + 1;
      live := live[1..];
    }

    /** Drops the holes in front once they are worth it. */
    method Compact()
      requires Evicting() && Fits(live, ringCapacity, ringByteCapacity)
      modifies this`ring, this`ringStart, this`shifted
      ensures RingValid()
    {
      HoledCompact(ring, ringStart, live);
      if ringStart == |ring| {
        ring, ringStart := [], 0;
      } else if ringStart >= COMPACT_AT && ringStart * 2 >= |ring| {
        shifted := shifted + (|ring| - ringStart);
        ring, ringStart := ring[ringStart..], 0;
      }
    }

    /** Hands one event to one subscriber. */
    method DeliverTo(event: Event, id: nat)
      requires StreamsValid(subscribers)
      modifies this`subscribers
      ensures StreamsValid(subscribers)
      ensures subscribers == Handed(old(subscribers), event, id)
    {
      if id !in subscribers || !subscribers[id].filter.Admits(event) {
        assert id in subscribers ==> subscribers[id := subscribers[id]] == subscribers;
        return;
      }
      DeliverValid(subscribers[id], event);
      var next := Absorb(subscribers[id], event);
      subscribers := if next.Some? then subscribers[id := next.value] else subscribers - {id};
    }

    /** Absorbs overflow: remembers what was evicted, and owes the consumer one marker. */
    method Absorb(before: Subscriber, event: Event) returns (next: Option<Subscriber>)
      requires before.filter.Admits(event)
      ensures next == Deliver(before, event)
    {
      var subscriber := before;
      var (stream, outcome) := subscriber.stream.Offer(event);
      match outcome {
        case Enqueued =>
          if subscriber.droppedCount > 0 {
            var marker := Marker(subscriber);
            subscriber := subscriber.(droppedCount := 0);
            return Some(subscriber.(stream := stream.Offer(marker).0));
          }
        case Dropped(evicted) =>
          if subscriber.droppedCount == 0 {
            subscriber := subscriber.(firstDropped := evicted.sequence);
          }
          subscriber := subscriber.(lastDropped := evicted.sequence);
          subscriber := subscriber.(droppedCount := subscriber.droppedCount + 1);
        case Terminated =>
          return None;
      }
      next := Some(subscriber.(stream := stream));
    }

    /** Stamps an event, archives it and hands it to everyone. */
    method Publish(name: string, params: Params, session: Option<nat>) returns (event: Event)
      requires Valid()
      modifies this`nextSeq, this`ring, this`ringStart, this`ringBytes, this`live, this`archived, this`shifted, this`subscribers
      ensures Valid()
      ensures event == Event(name, old(nextSeq), session, params) && nextSeq == old(nextSeq) + 1
      ensures if ringCapacity > 0 && ringByteCapacity > 0 && Encodes(params)
              then archived == old(archived) + [Archived(name, old(nextSeq), session, params.encoding.value)]
              else archived == old(archived)
      ensures Delivered(old(subscribers), subscribers, event, {})
    {
      event := Event(name, nextSeq, session, params);
      nextSeq := nextSeq + 1;
      Archive(event);
      HandToAll(event);
    }

    method HandToAll(event: Event)
      requires StreamsValid(subscribers)
      modifies this`subscribers
      ensures StreamsValid(subscribers) && Delivered(old(subscribers), subscribers, event, {})
    {
      var before, ids := subscribers, subscribers.Keys;
      while ids != {}
        invariant StreamsValid(subscribers) && ids <= before.Keys
        invariant Delivered(before, subscribers, event, ids)
        decreases |ids|
      {
        var id :| id in ids;
        assert subscribers[id] == before[id];
        DeliverTo(event, id);
        ids := ids - {id};
      }
    }

    /** A new stream, with what the ring still holds after `since` already in it. */
    method Subscribe(id: nat, since: Option<nat>, filter: Filter)
      requires Valid() && id !in subscribers
      modifies this`subscribers
      ensures Valid()
      ensures var empty := Stream(subscriberCapacity, false, false, [], []);
              subscribers == old(subscribers)[id := Fresh(filter,
                if since.None? then empty else OfferAll(empty, Replay(live, since.value, filter)))]
    {
      var stream := Stream(subscriberCapacity, false, false, [], []);
      if since.Some? {
        stream := ReplayInto(stream, since.value, filter);
      }
      subscribers := subscribers[id := Fresh(filter, stream)];
    }

    method ReplayInto(empty: Stream, since: nat, filter: Filter) returns (stream: Stream)
      requires RingValid() && empty.Valid() && !empty.closed
      ensures stream == OfferAll(empty, Replay(live, since, filter)) && stream.Valid()
    {
      stream := empty;
      var i := ringStart;
      ghost var rest := live;
      while i < |ring|
        invariant ringStart <= i <= |ring| && rest == live[i - ringStart..]
        invariant OfferAll(empty, Replay(live, since, filter)) == OfferAll(stream, Replay(rest, since, filter))
        invariant stream.Valid() && !stream.closed
      {
        var event := ring[i].value.Replayed();
        assert rest[0] == ring[i].value;
        if event.sequence > since && filter.Admits(event) {
          OfferValid(stream, event);
          stream := stream.Offer(event).0;
        }
        rest := rest[1..];
        i := i + 1;
      }
    }

    /** The consumer is gone. */
    method RemoveSubscriber(id: nat)
      requires Valid()
      modifies this`subscribers
      ensures Valid() && subscribers == old(subscribers) - {id}
    {
      subscribers := subscribers - {id};
    }
  }

  function Handed(subscribers: map<nat, Subscriber>, e: Event, id: nat): map<nat, Subscriber> {
    if id !in subscribers then subscribers
    else
      var next := Deliver(subscribers[id], e);
      if next.Some? then subscribers[id := next.value] else subscribers - {id}
  }

  /** Holes up to `start`, then the live entries. */
  ghost predicate Holed(ring: seq<Option<Archived>>, start: nat, live: seq<Archived>) {
    && start + |live| == |ring|
    && (forall i | 0 <= i < start :: ring[i].None?)
    && (forall i | 0 <= i < |live| :: ring[start + i] == Some(live[i]))
  }

  lemma HoledPush(ring: seq<Option<Archived>>, start: nat, live: seq<Archived>, e: Archived)
    requires Holed(ring, start, live)
    ensures Holed(ring + [Some(e)], start, live + [e])
  {}

  lemma HoledEvict(ring: seq<Option<Archived>>, start: nat, live: seq<Archived>)
    requires Holed(ring, start, live) && live != []
    ensures ring[start] == Some(live[0]) && Holed(ring[start := None], start + 1, live[1..])
  {
    assert ring[start + 0] == Some(live[0]);
    forall i | 0 <= i < |live| - 1
      ensures ring[start := None][start + 1 + i] == Some(live[1..][i])
    {
      assert ring[start + (i + 1)] == Some(live[i + 1]);
    }
  }

  lemma HoledCompact(ring: seq<Option<Archived>>, start: nat, live: seq<Archived>)
    requires Holed(ring, start, live)
    ensures Holed(ring[start..], 0, live)
  {
    forall i | 0 <= i < |live|
      ensures ring[start..][0 + i] == Some(live[i])
    {
      assert ring[start + i] == Some(live[i]);
    }
  }

  ghost predicate StreamsValid(subscribers: map<nat, Subscriber>) {
    forall id | id in subscribers :: subscribers[id].stream.Valid()
  }

  lemma DeliverValid(s: Subscriber, e: Event)
    requires s.stream.Valid()
    ensures Deliver(s, e).Some? ==> Deliver(s, e).value.stream.Valid()
  {}

  /** Every subscriber outside `pending` has been handed the event, the rest have not. */
  ghost predicate Delivered(before: map<nat, Subscriber>, after: map<nat, Subscriber>, e: Event, pending: set<nat>) {
    && after.Keys <= before.Keys
    && (forall id | id in before ::
          var next := if id in pending then Some(before[id]) else Deliver(before[id], e);
          (id in after <==> next.Some?) && (id in after ==> after[id] == next.value))
  }
}
