/**
 * The booked-id set and the updater both booking handlers pass to
 * setBookedEvents: copy the previous set and add one id. There is no
 * operation that removes an id.
 */
module Bookings {

  import opened Events

  /**
   * `prev => { const next = new Set(prev); next.add(id); return next; }`:
   * the result holds the id, every id booked before, and nothing else.
   */
  function Book(prev: set<EventId>, id: EventId): (next: set<EventId>)
    ensures id in next
    ensures prev <= next
    ensures forall x :: x in next ==> x in prev || x == id
  {
    prev + {id}
  }

  /** The set after one booking per id, in order. */
  function BookAll(prev: set<EventId>, ids: seq<EventId>): set<EventId>
    decreases |ids|
  {
    if ids == [] then prev else BookAll(Book(prev, ids[0]), ids[1..])
  }

  /** Booking an id that is already booked leaves the set as it was. */
  lemma BookIdempotent(prev: set<EventId>, id: EventId)
    requires id in prev
    ensures Book(prev, id) == prev
  {
  }

  /**
   * Any run of bookings yields the old set united with the booked ids: it
   * only grows, and neither order nor repetition matters.
   */
  lemma {:induction false} BookAllIsUnion(prev: set<EventId>, ids: seq<EventId>)
    ensures BookAll(prev, ids) == prev + set i | i in ids
    decreases |ids|
  {
    if ids != [] {
      BookAllIsUnion(Book(prev, ids[0]), ids[1..]);
      assert (set i | i in ids) == {ids[0]} + set i | i in ids[1..];
    }
  }

  /** Repeating a run of bookings changes nothing. */
  lemma BookAllTwice(prev: set<EventId>, ids: seq<EventId>)
    ensures BookAll(BookAll(prev, ids), ids) == BookAll(prev, ids)
  {
    BookAllIsUnion(prev, ids);
    BookAllIsUnion(BookAll(prev, ids), ids);
  }

}
