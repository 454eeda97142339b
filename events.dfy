/**
 * The event records the cards display (types.ts) and the six records the
 * demo ships with (constants.ts), kept as a fixture.
 */
module Events {

  type EventId = string

  /** One bookable event; static, never changed at run time. */
  datatype EventItem = EventItem(
    id: EventId,
    title: string,
    date: string,
    location: string,
    price: int,
    category: string,
    imageUrl: string)

  /** MOCK_EVENTS: the grid App draws, one card per record, keyed by id. */
  const MockEvents: seq<EventItem> := [
    EventItem("e1", "Neon Tech Summit 2024", "Oct 12, 2024", "San Francisco, CA", 299,
              "Technology", "https://picsum.photos/800/600?random=1"),
    EventItem("e2", "Abstract Art Gala", "Nov 05, 2024", "New York, NY", 150,
              "Art & Culture", "https://picsum.photos/800/600?random=2"),
    EventItem("e3", "Future of AI Conference", "Dec 10, 2024", "Austin, TX", 450,
              "Technology", "https://picsum.photos/800/600?random=3"),
    EventItem("e4", "Indie Music Festival", "Jan 20, 2025", "Portland, OR", 85,
              "Music", "https://picsum.photos/800/600?random=4"),
    EventItem("e5", "Sustainable Living Expo", "Feb 15, 2025", "Denver, CO", 45,
              "Lifestyle", "https://picsum.photos/800/600?random=5"),
    EventItem("e6", "Global Startup Pitch", "Mar 10, 2025", "London, UK", 200,
              "Business", "https://picsum.photos/800/600?random=6")
  ]

  /** The records' ids, which the cards are keyed by, are pairwise distinct; the first is "e1". */
  lemma MockIdsDistinct()
    ensures |MockEvents| == 6 && MockEvents[0].id == "e1"
    ensures forall i, j :: 0 <= i < j < |MockEvents| ==> MockEvents[i].id != MockEvents[j].id
  {
    var ids := ["e1", "e2", "e3", "e4", "e5", "e6"];
    assert forall i :: 0 <= i < 6 ==> MockEvents[i].id == ids[i];
    assert forall i :: 0 <= i < 6 ==> |ids[i]| == 2 && ids[i][1] == "123456"[i];
  }

}
