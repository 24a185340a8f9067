// The fan-out inside one process (backend/src/option_arb/events.py).
//
// Every subscriber has a bounded queue of its own; a full one misses the event and holds up nobody.
module EventBus {
  import opened EventRelay
  import opened StableSorting

  // A maximum of zero or less means no bound.
  predicate HasRoom(items: seq<Event>, maxSize: int) {
    maxSize <= 0 || |items| < maxSize
  }

  function Offered(items: seq<Event>, maxSize: int, e: Event): seq<Event> {
    if HasRoom(items, maxSize) then items + [e] else items
  }

  function OfferedAll(items: seq<Event>, maxSize: int, events: seq<Event>): seq<Event> {
    if events == [] then items else Offered(OfferedAll(items, maxSize, Front(events)), maxSize, Last(events))
  }

  // A queue nobody reads keeps the oldest events it has room for and misses the rest.
  lemma {:induction false} UnreadKeepsOldest(items: seq<Event>, maxSize: int, events: seq<Event>)
    requires maxSize <= 0 || |items| <= maxSize
    ensures OfferedAll(items, maxSize, events) ==
      items + if maxSize <= 0 || |items| + |events| <= maxSize then events else events[..maxSize - |items|]
  {
    if events != [] {
      UnreadKeepsOldest(items, maxSize, Front(events));
      assert events == Front(events) + [Last(events)];
    }
  }

  class Queue {
    const maxSize: int
    var items: seq<Event>

    constructor (maxSize: int)
      ensures this.maxSize == maxSize && items == []
    {
      this.maxSize := maxSize;
      items := [];
    }

    // Raises when full.
    method PutNowait(e: Event) returns (ok: bool)
      modifies this
      ensures ok <==> HasRoom(old(items), maxSize)
      ensures items == Offered(old(items), maxSize, e)
    {
      ok := HasRoom(items, maxSize);
      if ok {
        items := items + [e];
      }
    }
  }

  datatype Effect = Delivered(event: Event) | Relayed(event: Event)

  class Bus {
    var subscribers: seq<Queue>
    var relayed: bool // whether a relay is attached
    ghost var trace: seq<Effect> // what was done with events, in order

    predicate Valid()
      reads this
    {
      forall i, j :: 0 <= i < j < |subscribers| ==> subscribers[i] != subscribers[j]
    }

    constructor ()
      ensures Valid() && subscribers == [] && !relayed && trace == []
    {
      subscribers := [];
      relayed := false;
      trace := [];
    }

    method Subscribe(maxSize: int) returns (q: Queue)
      requires Valid()
      modifies this`subscribers
      ensures Valid() && fresh(q) && q.maxSize == maxSize && q.items == []
      ensures subscribers == old(subscribers) + [q]
    {
      q := new Queue(maxSize);
      subscribers := subscribers + [q];
    }

    method Unsubscribe(q: Queue)
      requires Valid()
      modifies this`subscribers
      ensures Valid() && q !in subscribers
      ensures q !in old(subscribers) ==> subscribers == old(subscribers)
      ensures q in old(subscribers) ==>
        exists i :: 0 <= i < |old(subscribers)| && old(subscribers)[i] == q
          && subscribers == old(subscribers)[..i] + old(subscribers)[i + 1..]
    {
      for i := 0 to |subscribers|
        invariant subscribers == old(subscribers)
        invariant forall j :: 0 <= j < i ==> subscribers[j] != q
      {
        if subscribers[i] == q {
          subscribers := subscribers[..i] + subscribers[i + 1..];
          return;
        }
      }
    }

    method AttachRelay(attached: bool)
      modifies this`relayed
      ensures relayed == attached
    {
      relayed := attached;
    }

    // Every subscriber is offered the event once; nothing is relayed.
    method DeliverLocal(e: Event)
      requires Valid()
      modifies (set q | q in subscribers), this`trace
      ensures forall q :: q in subscribers ==> q.items == Offered(old(q.items), q.maxSize, e)
      ensures trace == old(trace) + [Delivered(e)]
    {
      for i := 0 to |subscribers|
        invariant forall j :: 0 <= j < i ==>
          subscribers[j].items == Offered(old(subscribers[j].items), subscribers[j].maxSize, e)
        invariant forall j :: i <= j < |subscribers| ==> subscribers[j].items == old(subscribers[j].items)
        invariant trace == old(trace)
      {
        var ok := subscribers[i].PutNowait(e);
      }
      trace := trace + [Delivered(e)];
    }

    // Local subscribers first, then the relay if one is attached.  `raises` says whether the relay
    // does; its failure is swallowed and changes nothing for the caller.
    method Publish(e: Event, raises: bool) returns (warned: bool)
      requires Valid()
      modifies (set q | q in subscribers), this`trace
      ensures forall q :: q in subscribers ==> q.items == Offered(old(q.items), q.maxSize, e)
      ensures trace == old(trace) + [Delivered(e)] + if relayed then [Relayed(e)] else []
      ensures warned == (relayed && raises)
    {
      DeliverLocal(e);
      warned := false;
      if relayed {
        trace := trace + [Relayed(e)];
        warned := raises;
      }
    }
  }
}
