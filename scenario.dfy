/**
 * A walkthrough on the six mock events, built around the forced parent
 * renders with useCallback ON and OFF that the demo's help text describes:
 * mount, book the first event, force three parent renders with useCallback
 * ON, switch it OFF, force one more parent render. Each step is one App
 * render; the renders that the cards' own log entries cause are not part
 * of it.
 */
module Walkthrough {

  import opened Events
  import opened Cards
  import Logs
  import opened Application

  /** The value of each card's renderCount, in card order. */
  function Counts(cards: seq<CardState>): (counts: seq<nat>)
    ensures |counts| == |cards|
    ensures forall i :: 0 <= i < |cards| ==> counts[i] == cards[i].renderCount
  {
    seq(|cards|, i requires 0 <= i < |cards| => cards[i].renderCount)
  }

  /** The first card's count, and one count shared by all the others. */
  predicate Shape(counts: seq<nat>, first: nat, others: nat) {
    |counts| > 0 && counts[0] == first && forall i :: 1 <= i < |counts| ==> counts[i] == others
  }

  /** The first event's id is the id of no other event. */
  predicate FirstKeyUnique(events: seq<EventItem>) {
    |events| > 0 && forall i :: 1 <= i < |events| ==> events[i].id != events[0].id
  }

  /** The state between two steps of the walkthrough: every card drawn in sync, with these counts. */
  ghost predicate At(app: App, booked: set<EventId>, useOptimization: bool, first: nat, others: nat)
    reads app
  {
    && app.Valid() && app.Synced() && FirstKeyUnique(app.events)
    && app.bookedEvents == booked && app.useOptimization == useOptimization
    && Shape(Counts(app.cards), first, others)
  }

  /** One App render and its commit, with every entry under the same stamp; what it logs is not needed here. */
  method Rerender(app: App, stamp: Logs.Stamp)
    requires app.Valid()
    modifies app
    ensures app.Valid() && app.Synced()
    ensures app.cards == StatesAfter(Draws(old(app.cards), app.events, app.bookedEvents, app.useOptimization, app.renders))
    ensures app.bookedEvents == old(app.bookedEvents) && app.useOptimization == old(app.useOptimization)
    ensures app.renders == old(app.renders) + 1
  {
    var draws := app.Update(seq(|app.events|, _ => stamp));
  }

  /** The first App render, from cards not drawn yet: every card counts 1. */
  lemma MountShape(before: seq<CardState>, events: seq<EventItem>, booked: set<EventId>, useOptimization: bool)
    requires |before| == |events| > 0
    requires forall i :: 0 <= i < |before| ==> before[i] == Unmounted
    ensures Shape(Counts(StatesAfter(Draws(before, events, booked, useOptimization, 1))), 1, 1)
  {
    RenderOutcome(before, events, booked, useOptimization, 0);
  }

  /**
   * A render after one in which every card drew in sync, when only the
   * first card's booked flag may have changed: the first card counts one
   * more when its flag changed or an inline handler is involved, the
   * others only in the latter case.
   */
  lemma SyncedShape(before: seq<CardState>, events: seq<EventItem>, booked0: set<EventId>, opt0: bool,
                    booked1: set<EventId>, opt1: bool, prev: nat, first: nat, others: nat)
    requires |before| == |events| && FirstKeyUnique(events)
    requires forall i :: 0 <= i < |events| ==> InSync(before[i], PropsFor(events[i], booked0, opt0, prev))
    requires forall i :: 1 <= i < |events| ==> (events[i].id in booked0 <==> events[i].id in booked1)
    requires Shape(Counts(before), first, others)
    ensures Shape(Counts(StatesAfter(Draws(before, events, booked1, opt1, prev + 1))),
                  first + (if (events[0].id in booked0) != (events[0].id in booked1) || !opt0 || !opt1 then 1 else 0),
                  others + (if !opt0 || !opt1 then 1 else 0))
  {
    SyncedRender(before, events, booked0, opt0, booked1, opt1, prev);
  }

  /** The first App render mounts every card, each counting 1. */
  method Mount(events: seq<EventItem>, stamp: Logs.Stamp) returns (app: App)
    requires FirstKeyUnique(events)
    ensures fresh(app) && app.events == events && At(app, {}, true, 1, 1)
  {
    app := new App(events);
    ghost var before := app.cards;
    Rerender(app, stamp);
    MountShape(before, app.events, {}, true);
  }

  /** Pressing the first card's button books its event; the render that follows redraws that card alone, now disabled. */
  method BookFirst(app: App, stamp: Logs.Stamp) returns (disabled: bool)
    requires At(app, {}, true, 1, 1)
    modifies app
    ensures At(app, {app.events[0].id}, true, 2, 1) && disabled
  {
    ghost var before := app.cards;
    ghost var r := app.renders;
    app.ClickBook(0, stamp);
    Rerender(app, stamp);
    SyncedShape(before, app.events, {}, true, {app.events[0].id}, true, r, 1, 1);
    disabled := app.Pressed(0).None?;
  }

  /** A forced parent render with useCallback ON redraws no card. */
  method ForceStable(app: App, ghost id: EventId, stamp: Logs.Stamp)
    requires At(app, {id}, true, 2, 1)
    modifies app
    ensures At(app, {id}, true, 2, 1)
  {
    ghost var before := app.cards;
    ghost var r := app.renders;
    app.ForceUpdate(stamp);
    Rerender(app, stamp);
    SyncedShape(before, app.events, {id}, true, {id}, true, r, 2, 1);
  }

  /** Switching useCallback OFF logs one 'info' entry and, through the App render it causes, redraws every card. */
  method SwitchOff(app: App, ghost id: EventId, stamp: Logs.Stamp) returns (entry: Logs.LogEntry)
    requires At(app, {id}, true, 2, 1)
    modifies app
    ensures At(app, {id}, false, 3, 2)
    ensures entry == Logs.Entry(stamp, ToggleMessage(false), Logs.Info)
  {
    ghost var before := app.cards;
    ghost var r := app.renders;
    app.ToggleOptimization(stamp);
    entry := app.logs[|app.logs| - 1];
    Rerender(app, stamp);
    SyncedShape(before, app.events, {id}, true, {id}, false, r, 2, 1);
  }

  /** A forced parent render with useCallback OFF redraws every card. */
  method ForceUnstable(app: App, ghost id: EventId, stamp: Logs.Stamp)
    requires At(app, {id}, false, 3, 2)
    modifies app
    ensures At(app, {id}, false, 4, 3)
  {
    ghost var before := app.cards;
    ghost var r := app.renders;
    app.ForceUpdate(stamp);
    Rerender(app, stamp);
    SyncedShape(before, app.events, {id}, false, {id}, false, r, 3, 2);
  }

  /**
   * With useCallback ON, booking "e1" redraws only its card, and forced
   * parent renders redraw none; switching it OFF redraws every card, and
   * so does every parent render after that. At the end "e1" is still
   * booked and its button still disabled. Every log entry carries the
   * same stamp.
   */
  method BookThenSwitch(stamp: Logs.Stamp)
    returns (booked: set<EventId>, firstDisabled: bool, stable: seq<nat>,
             switchEntry: Logs.LogEntry, switched: seq<nat>, forced: seq<nat>)
    ensures booked == {"e1"} && firstDisabled
    ensures |stable| == |switched| == |forced| == 6
    ensures Shape(stable, 2, 1)
    ensures switchEntry == Logs.Entry(stamp, ToggleMessage(false), Logs.Info)
    ensures Shape(switched, 3, 2)
    ensures Shape(forced, 4, 3)
  {
    MockIdsDistinct();
    var app := Mount(MockEvents, stamp);
    var disabledOnBooking := BookFirst(app, stamp);
    var n := 0;
    while n < 3
      invariant 0 <= n <= 3
      invariant At(app, {"e1"}, true, 2, 1)
    {
      ForceStable(app, "e1", stamp);
      n := n + 1;
    }
    stable := Counts(app.cards);
    switchEntry := SwitchOff(app, "e1", stamp);
    switched := Counts(app.cards);
    ForceUnstable(app, "e1", stamp);
    forced := Counts(app.cards);
    booked := app.bookedEvents;
    firstDisabled := app.Pressed(0).None?;
  }

}
