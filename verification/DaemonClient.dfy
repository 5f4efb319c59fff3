/** The client's books: the highest sequence number seen, and the requests in flight. */
module DaemonClients {
  import opened Wrappers
  import opened EventStreams
  import opened EventResume

  datatype Answer = Success(value: nat) | Failure(code: string)

  lemma HighestMore(es: seq<Event>, e: Event)
    ensures Highest(es + [e]) == if e.sequence > Highest(es) then e.sequence else Highest(es)
  {
    assert (es + [e])[..|es|] == es;
  }

  class DaemonClient {
    var lastSeq: nat
    var nextRequestID: nat
    var pending: set<nat>

    /** Every event routed, and every answer a caller was resumed with. */
    ghost var routed: seq<Event>
    ghost var answered: map<nat, Answer>

    /** Each request made is in flight or answered, never both. */
    ghost predicate Valid()
      reads this
    {
      && lastSeq == Highest(routed)
      && pending !! answered.Keys
      && (forall id :: 1 <= id <= nextRequestID <==> id in pending || id in answered)
    }

    constructor ()
      ensures Valid() && routed == [] && nextRequestID == 0 && pending == {}
    {
      lastSeq, nextRequestID, pending := 0, 0, {};
      routed, answered := [], map[];
    }

    method RouteEvent(event: Event)
      requires Valid()
      modifies this`lastSeq, this`routed
      ensures Valid() && routed == old(routed) + [event]
    {
      if event.sequence > lastSeq {
        lastSeq := event.sequence;
      }
      HighestMore(routed, event);
      routed := routed + [event];
    }

    /** Where a subscription resumes: `None` before the first event. */
    method Since() returns (since: Option<nat>)
      requires Valid()
      ensures since == if Highest(routed) == 0 then None else Some(Highest(routed))
    {
      since := if lastSeq == 0 then None else Some(lastSeq);
    }

    /** A new request goes in flight, or fails at once without a connection. One whose
        parameters do not encode uses up its id and is answered by an error of its own. */
    method Request(encodes: bool, established: bool) returns (id: nat)
      requires Valid()
      modifies this`nextRequestID, this`pending, this`answered
      ensures Valid() && id == old(nextRequestID) + 1 == nextRequestID
      ensures id !in old(pending) && id !in old(answered)
      ensures encodes && established ==> pending == old(pending) + {id} && answered == old(answered)
      ensures !encodes || !established ==>
                pending == old(pending) &&
                answered == old(answered)[id := Failure(if encodes then "disconnected" else "encoding")]
    {
      nextRequestID := nextRequestID + 1;
      id := nextRequestID;
      if !encodes {
        answered := answered[id := Failure("encoding")];
        return;
      }
      if !established {
        answered := answered[id := Failure("disconnected")];
        return;
      }
      pending := pending + {id};
    }

    /** A response, or a timeout: only the first to arrive is heard. */
    method Resolve(id: nat, answer: Answer)
      requires Valid()
      modifies this`pending, this`answered
      ensures Valid() && pending == old(pending) - {id}
      ensures answered == if id in old(pending) then old(answered)[id := answer] else old(answered)
    {
      if id !in pending {
        return;
      }
      pending := pending - {id};
      answered := answered[id := answer];
    }

    /** The connection is gone: everyone in flight hears it, nobody else. */
    method FailPending(code: string)
      requires Valid()
      modifies this`pending, this`answered
      ensures Valid() && pending == {}
      ensures answered.Keys == old(answered.Keys + pending)
      ensures forall id | id in answered ::
                answered[id] == if id in old(pending) then Failure(code) else old(answered)[id]
    {
      var entries := pending;
      pending := {};
      answered := map id | id in answered.Keys + entries :: if id in entries then Failure(code) else answered[id];
    }
  }
}
