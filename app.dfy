/**
 * The App component: four state cells replaced one event at a time, the
 * handlers that replace them, the choice of the onBook handler, and one App
 * render in which every card is offered its new props and the cards that
 * draw log one 'render' entry each.
 */
module Application {

  import opened Options
  import opened Events
  import Logs
  import Bookings
  import opened Cards

  const OptimizedBookPrefix: string := "Booking Action: ID "
  const UnoptimizedBookPrefix: string := "Booking Action (Unoptimized): ID "
  const ForceUpdateMessage: string := "Parent component forcibly re-rendered"

  /** The 'action' message of a booking handler; the two handlers differ only in this text. */
  function BookMessage(id: EventId, optimized: bool): string {
    (if optimized then OptimizedBookPrefix else UnoptimizedBookPrefix) + id
  }

  /** The 'info' message of the toggle, naming the value the flag now has. */
  function ToggleMessage(nowOn: bool): string {
    "Switched optimization to " + if nowOn then "ON" else "OFF"
  }

  /** The toggle's message tells ON from OFF. */
  lemma ToggleMessageNamesValue(a: bool, b: bool)
    ensures ToggleMessage(a) == ToggleMessage(b) <==> a == b
  {
    if a != b {
      assert ToggleMessage(a)[|ToggleMessage(a)| - 1] != ToggleMessage(b)[|ToggleMessage(b)| - 1];
    }
  }

  /** The two booking messages for the same id differ. */
  lemma BookMessagesDiffer(id: EventId)
    ensures BookMessage(id, true) != BookMessage(id, false)
  {
    assert BookMessage(id, true)[15] != BookMessage(id, false)[15];
  }

  /** `useOptimization ? handleBookOptimized : handleBookUnoptimized` in App render number `render`. */
  function SelectHandler(useOptimization: bool, render: nat): BookHandler {
    if useOptimization then Optimized else Inline(render)
  }

  /**
   * With the flag on every App render passes the same handler; with it off
   * two different renders never pass the same one.
   */
  lemma SelectHandlerIdentity(r1: nat, r2: nat)
    ensures SelectHandler(true, r1) == SelectHandler(true, r2)
    ensures SelectHandler(false, r1) == SelectHandler(false, r2) <==> r1 == r2
  {
  }

  /** The props App render number `render` gives the card of event e. */
  function PropsFor(e: EventItem, booked: set<EventId>, useOptimization: bool, render: nat): Props {
    Props(e, e.id in booked, SelectHandler(useOptimization, render), render)
  }

  /**
   * A card whose last draw matches the current state is skipped when the
   * flag is on and the App renders again for any other reason.
   */
  lemma StableHandlerSkipsParentOnlyRender(drawn: Props, e: EventItem, booked: set<EventId>, r1: nat, r2: nat)
    requires PropsAreEqual(drawn, PropsFor(e, booked, true, r1))
    ensures SkipRender(Some(drawn), PropsFor(e, booked, true, r2))
  {
  }

  /**
   * With the flag off, a card drawn in an earlier App render always draws
   * again, whatever else changed.
   */
  lemma InlineHandlerForcesRedraw(drawn: Option<Props>, e: EventItem, booked: set<EventId>, render: nat)
    requires drawn.Some? && drawn.value.onBook.Inline? ==> drawn.value.onBook.render < render
    ensures !SkipRender(drawn, PropsFor(e, booked, false, render))
  {
  }

  /** A draw whose effect logs: the card drew, so it holds the props it drew with. */
  predicate Emits(d: Draw) {
    d.drew && d.state.drawn.Some?
  }

  /** The 'render' entry a card's effect logs after the draw d, if it drew. */
  function MessageEntry(stamp: Logs.Stamp, d: Draw): seq<Logs.LogEntry> {
    if Emits(d) then [Logs.Entry(stamp, EffectMessage(d.state), Logs.Render)] else []
  }

  /** The 'render' entries the cards' effects log, in card order, one per card that drew. */
  function RenderLog(stamps: seq<Logs.Stamp>, draws: seq<Draw>): seq<Logs.LogEntry>
    requires |stamps| == |draws|
    decreases |draws|
  {
    if draws == [] then []
    else
      var n := |draws| - 1;
      RenderLog(stamps[..n], draws[..n]) + MessageEntry(stamps[n], draws[n])
  }

  /** How many of the draws emit a 'render' entry. */
  function DrewCount(draws: seq<Draw>): (c: nat)
    ensures c <= |draws|
    decreases |draws|
  {
    if draws == [] then 0
    else DrewCount(draws[..|draws| - 1]) + if Emits(draws[|draws| - 1]) then 1 else 0
  }

  /** The render log holds only 'render' entries, one per draw that emits. */
  lemma {:induction false} RenderLogLength(stamps: seq<Logs.Stamp>, draws: seq<Draw>)
    requires |stamps| == |draws|
    ensures forall k :: 0 <= k < |RenderLog(stamps, draws)| ==> RenderLog(stamps, draws)[k].kind == Logs.Render
    ensures |RenderLog(stamps, draws)| == DrewCount(draws)
    decreases |draws|
  {
    if draws != [] {
      var n := |draws| - 1;
      RenderLogLength(stamps[..n], draws[..n]);
    }
  }

  /** Card i, when it drew, has its own message at the position after the entries of the drawing cards before it. */
  lemma {:induction false} RenderLogEntry(stamps: seq<Logs.Stamp>, draws: seq<Draw>, i: nat)
    requires |stamps| == |draws| && i < |draws| && Emits(draws[i])
    ensures DrewCount(draws[..i]) < |RenderLog(stamps, draws)|
    ensures RenderLog(stamps, draws)[DrewCount(draws[..i])] == Logs.Entry(stamps[i], EffectMessage(draws[i].state), Logs.Render)
    decreases |draws|
  {
    var n := |draws| - 1;
    var pre := RenderLog(stamps[..n], draws[..n]);
    assert RenderLog(stamps, draws) == pre + MessageEntry(stamps[n], draws[n]);
    if i == n {
      RenderLogLength(stamps[..n], draws[..n]);
    } else {
      RenderLogEntry(stamps[..n], draws[..n], i);
      assert draws[..n][i] == draws[i] && stamps[..n][i] == stamps[i];
      assert draws[..n][..i] == draws[..i];
    }
  }

  /**
   * The render log has exactly one 'render' entry per card that drew, in
   * card order: card i's entry sits after those of the drawing cards
   * before it and carries card i's own message (its id and new count);
   * when no card draws the log is empty.
   */
  lemma RenderLogContents(stamps: seq<Logs.Stamp>, draws: seq<Draw>)
    requires |stamps| == |draws|
    ensures forall k :: 0 <= k < |RenderLog(stamps, draws)| ==> RenderLog(stamps, draws)[k].kind == Logs.Render
    ensures |RenderLog(stamps, draws)| == DrewCount(draws) <= |draws|
    ensures forall i :: 0 <= i < |draws| && Emits(draws[i]) ==>
      && DrewCount(draws[..i]) < |RenderLog(stamps, draws)|
      && RenderLog(stamps, draws)[DrewCount(draws[..i])] == Logs.Entry(stamps[i], EffectMessage(draws[i].state), Logs.Render)
    ensures (forall i :: 0 <= i < |draws| ==> !draws[i].drew) ==> RenderLog(stamps, draws) == []
  {
    RenderLogLength(stamps, draws);
    forall i | 0 <= i < |draws| && Emits(draws[i])
      ensures DrewCount(draws[..i]) < |RenderLog(stamps, draws)|
      ensures RenderLog(stamps, draws)[DrewCount(draws[..i])] == Logs.Entry(stamps[i], EffectMessage(draws[i].state), Logs.Render)
    {
      RenderLogEntry(stamps, draws, i);
    }
    if forall i :: 0 <= i < |draws| ==> !draws[i].drew {
      NoneEmits(draws);
    }
  }

  /** When no card draws, none emits. */
  lemma {:induction false} NoneEmits(draws: seq<Draw>)
    requires forall i :: 0 <= i < |draws| ==> !draws[i].drew
    ensures DrewCount(draws) == 0
    decreases |draws|
  {
    if draws != [] {
      NoneEmits(draws[..|draws| - 1]);
    }
  }

  lemma {:induction false} AllEmit(draws: seq<Draw>)
    requires forall i :: 0 <= i < |draws| ==> Emits(draws[i])
    ensures DrewCount(draws) == |draws|
    decreases |draws|
  {
    if draws != [] {
      AllEmit(draws[..|draws| - 1]);
    }
  }

  /** The log of the first App render: one 'render' entry per card, each with count 1, in card order. */
  function MountLog(stamps: seq<Logs.Stamp>, events: seq<EventItem>): (log: seq<Logs.LogEntry>)
    requires |stamps| == |events|
    ensures |log| == |events|
  {
    seq(|events|, i requires 0 <= i < |events| => Logs.Entry(stamps[i], RenderMessage(events[i].id, 1), Logs.Render))
  }

  /**
   * The first App render mounts every card: each one draws, its counter
   * reads 1, and the render log is the mount log.
   */
  lemma {:induction false} FirstRenderMounts(stamps: seq<Logs.Stamp>, draws: seq<Draw>, events: seq<EventItem>,
                                             booked: set<EventId>, useOptimization: bool, render: nat)
    requires |stamps| == |draws| == |events|
    requires forall i :: 0 <= i < |draws| ==> draws[i] == Step(Unmounted, PropsFor(events[i], booked, useOptimization, render))
    ensures forall i :: 0 <= i < |draws| ==> draws[i].drew && draws[i].state.renderCount == 1
    ensures RenderLog(stamps, draws) == MountLog(stamps, events)
    decreases |draws|
  {
    if draws != [] {
      var n := |draws| - 1;
      FirstRenderMounts(stamps[..n], draws[..n], events[..n], booked, useOptimization, render);
      assert MountLog(stamps, events) == MountLog(stamps[..n], events[..n]) + MessageEntry(stamps[n], draws[n]);
    }
  }

  /** A card shows its own event, and any inline handler it holds comes from a render that already happened. */
  predicate Fits(s: CardState, e: EventItem, renders: nat) {
    s.drawn.Some? ==> s.drawn.value.event == e && (s.drawn.value.onBook.Inline? ==> s.drawn.value.onBook.render <= renders)
  }

  /** A card has drawn, and its last draw agrees with the props p under the comparator. */
  predicate InSync(s: CardState, p: Props) {
    s.drawn.Some? && PropsAreEqual(s.drawn.value, p)
  }

  /**
   * What one offer of props does to one card: it ends in sync with the
   * offer; with the flag on, a card whose last draw matches what the same
   * state gave it in the previous render (so its booked flag is unchanged)
   * does not draw; with the flag off it draws. SyncedCardRedraw covers a
   * booked flag that changed between the two renders.
   */
  lemma DrawOutcome(s: CardState, e: EventItem, booked: set<EventId>, useOptimization: bool, prev: nat)
    requires Fits(s, e, prev)
    ensures var d := Step(s, PropsFor(e, booked, useOptimization, prev + 1));
      && Fits(d.state, e, prev + 1)
      && InSync(d.state, PropsFor(e, booked, useOptimization, prev + 1))
      && (useOptimization && InSync(s, PropsFor(e, booked, useOptimization, prev)) ==> d.state == s && !d.drew)
      && (!useOptimization || s.drawn.None? ==> d.state.renderCount == s.renderCount + 1)
  {
  }

  /**
   * A card last drawn in sync with one App render, offered the props of the
   * next: it redraws exactly when its booked flag changed or either render
   * passed an inline handler, and then its count goes up by one.
   */
  lemma SyncedCardRedraw(s: CardState, e: EventItem, booked0: set<EventId>, opt0: bool,
                         booked1: set<EventId>, opt1: bool, prev: nat)
    requires InSync(s, PropsFor(e, booked0, opt0, prev))
    ensures var d := Step(s, PropsFor(e, booked1, opt1, prev + 1));
      && (d.drew <==> (e.id in booked0) != (e.id in booked1) || !opt0 || !opt1)
      && d.state.renderCount == s.renderCount + (if d.drew then 1 else 0)
  {
  }

  /** A card in sync with the state has its book button disabled exactly when its event is booked. */
  lemma SyncedButton(s: CardState, e: EventItem, booked: set<EventId>, useOptimization: bool, render: nat)
    requires InSync(s, PropsFor(e, booked, useOptimization, render))
    ensures s.drawn.Some? && (ButtonDisabled(s.drawn.value) <==> e.id in booked)
  {
  }

  /**
   * Once booked, a card's button stays disabled: bookings only grow, so in
   * any later App render the card, in sync with the earlier one, ends in
   * sync with props that say booked, and a click on it calls nothing.
   */
  lemma BookedButtonStaysDisabled(s: CardState, e: EventItem, booked0: set<EventId>, opt0: bool,
                                  booked1: set<EventId>, opt1: bool, prev: nat)
    requires InSync(s, PropsFor(e, booked0, opt0, prev))
    requires e.id in booked0 && booked0 <= booked1
    ensures var d := Step(s, PropsFor(e, booked1, opt1, prev + 1));
      && InSync(d.state, PropsFor(e, booked1, opt1, prev + 1))
      && ButtonDisabled(d.state.drawn.value)
      && Click(d.state.drawn.value).None?
  {
  }

  /**
   * App render number `render`, `MOCK_EVENTS.map` over the cards: each card,
   * from its state in `before`, is offered the props that render gives it.
   */
  function Draws(before: seq<CardState>, events: seq<EventItem>, booked: set<EventId>, useOptimization: bool, render: nat): (ds: seq<Draw>)
    requires |before| == |events|
    ensures |ds| == |before|
    decreases |before|
  {
    if before == [] then []
    else
      var n := |before| - 1;
      Draws(before[..n], events[..n], booked, useOptimization, render) + [Step(before[n], PropsFor(events[n], booked, useOptimization, render))]
  }

  /** Card i's draw is its own step, from its own state, on the props for its own event. */
  lemma {:induction false} DrawsPointwise(before: seq<CardState>, events: seq<EventItem>, booked: set<EventId>, useOptimization: bool, render: nat)
    requires |before| == |events|
    ensures forall i :: 0 <= i < |before| ==>
      Draws(before, events, booked, useOptimization, render)[i] == Step(before[i], PropsFor(events[i], booked, useOptimization, render))
    decreases |before|
  {
    if before != [] {
      var n := |before| - 1;
      DrawsPointwise(before[..n], events[..n], booked, useOptimization, render);
    }
  }

  /** The cards' states after the draws. */
  function StatesAfter(draws: seq<Draw>): (states: seq<CardState>)
    ensures |states| == |draws|
    decreases |draws|
  {
    if draws == [] then [] else StatesAfter(draws[..|draws| - 1]) + [draws[|draws| - 1].state]
  }

  lemma {:induction false} StatesAfterPointwise(draws: seq<Draw>)
    ensures forall i :: 0 <= i < |draws| ==> StatesAfter(draws)[i] == draws[i].state
    decreases |draws|
  {
    if draws != [] {
      StatesAfterPointwise(draws[..|draws| - 1]);
    }
  }

  /**
   * What one App render does to the cards, as values: every card ends in
   * sync with the props it was offered; with the flag on, cards that were
   * in sync with the previous render do not draw and nothing is logged;
   * with the flag off, and for cards not drawn yet, the card draws once.
   */
  lemma RenderOutcome(before: seq<CardState>, events: seq<EventItem>, booked: set<EventId>, useOptimization: bool, prev: nat)
    requires |before| == |events|
    requires forall i :: 0 <= i < |events| ==> Fits(before[i], events[i], prev)
    ensures var after := StatesAfter(Draws(before, events, booked, useOptimization, prev + 1));
      forall i :: 0 <= i < |events| ==>
        Fits(after[i], events[i], prev + 1) && InSync(after[i], PropsFor(events[i], booked, useOptimization, prev + 1))
    ensures var draws := Draws(before, events, booked, useOptimization, prev + 1);
      useOptimization && (forall i :: 0 <= i < |events| ==> InSync(before[i], PropsFor(events[i], booked, useOptimization, prev))) ==>
        StatesAfter(draws) == before && forall i :: 0 <= i < |draws| ==> !draws[i].drew
    ensures var after := StatesAfter(Draws(before, events, booked, useOptimization, prev + 1));
      forall i :: 0 <= i < |events| && (!useOptimization || before[i].drawn.None?) ==>
        after[i].renderCount == before[i].renderCount + 1
  {
    var draws := Draws(before, events, booked, useOptimization, prev + 1);
    DrawsPointwise(before, events, booked, useOptimization, prev + 1);
    StatesAfterPointwise(draws);
    forall i | 0 <= i < |events|
      ensures Fits(draws[i].state, events[i], prev + 1)
      ensures InSync(draws[i].state, PropsFor(events[i], booked, useOptimization, prev + 1))
      ensures useOptimization && InSync(before[i], PropsFor(events[i], booked, useOptimization, prev)) ==>
        draws[i].state == before[i] && !draws[i].drew
      ensures !useOptimization || before[i].drawn.None? ==> draws[i].state.renderCount == before[i].renderCount + 1
    {
      DrawOutcome(before[i], events[i], booked, useOptimization, prev);
    }
  }

  /**
   * An App render after one in which every card drew in sync: card i
   * redraws exactly when its booked flag changed or an inline handler is
   * involved, and only the cards that redraw count one more.
   */
  lemma SyncedRender(before: seq<CardState>, events: seq<EventItem>, booked0: set<EventId>, opt0: bool,
                     booked1: set<EventId>, opt1: bool, prev: nat)
    requires |before| == |events|
    requires forall i :: 0 <= i < |events| ==> InSync(before[i], PropsFor(events[i], booked0, opt0, prev))
    ensures var draws := Draws(before, events, booked1, opt1, prev + 1);
      forall i :: 0 <= i < |events| ==>
        && (draws[i].drew <==> (events[i].id in booked0) != (events[i].id in booked1) || !opt0 || !opt1)
        && StatesAfter(draws)[i].renderCount == before[i].renderCount + (if draws[i].drew then 1 else 0)
  {
    var draws := Draws(before, events, booked1, opt1, prev + 1);
    DrawsPointwise(before, events, booked1, opt1, prev + 1);
    StatesAfterPointwise(draws);
    forall i | 0 <= i < |events|
      ensures draws[i].drew <==> (events[i].id in booked0) != (events[i].id in booked1) || !opt0 || !opt1
      ensures draws[i].state.renderCount == before[i].renderCount + (if draws[i].drew then 1 else 0)
    {
      SyncedCardRedraw(before[i], events[i], booked0, opt0, booked1, opt1, prev);
    }
  }

  /**
   * With the flag off, every App render hands each card a new inline
   * handler, so every card draws and its effect logs an entry: the render
   * adds one 'render' entry per card, and each of those `setLogs` calls
   * schedules the next App render.
   */
  lemma InlineRenderLogsEveryCard(stamps: seq<Logs.Stamp>, before: seq<CardState>, events: seq<EventItem>,
                                  booked: set<EventId>, prev: nat)
    requires |before| == |events| && |stamps| == |events|
    requires forall i :: 0 <= i < |events| ==> Fits(before[i], events[i], prev)
    ensures var draws := Draws(before, events, booked, false, prev + 1);
      (forall i :: 0 <= i < |draws| ==> Emits(draws[i])) && |RenderLog(stamps, draws)| == |events|
  {
    var draws := Draws(before, events, booked, false, prev + 1);
    DrawsPointwise(before, events, booked, false, prev + 1);
    forall i | 0 <= i < |draws|
      ensures Emits(draws[i])
    {
      InlineHandlerForcesRedraw(before[i].drawn, events[i], booked, prev + 1);
    }
    AllEmit(draws);
    RenderLogLength(stamps, draws);
  }

  /** The App component's state, with the state of the card rendered for each event. */
  class App {

    /** MOCK_EVENTS, one card per record in this order. */
    const events: seq<EventItem>

    /** The state of the EventCard instance keyed by each event, in the same order. */
    var cards: seq<CardState>
    var bookedEvents: set<EventId>
    var logs: seq<Logs.LogEntry>
    /** Dummy state bumped to force a parent re-render. */
    var tick: nat
    var useOptimization: bool
    /** How many times App has rendered; App render k creates the closures named k. */
    var renders: nat

    ghost predicate Valid()
      reads this
    {
      && |cards| == |events|
      && |logs| <= Logs.MaxLogs
      && forall i :: 0 <= i < |cards| ==> Fits(cards[i], events[i], renders)
    }

    /** Every card has drawn, and its last draw agrees with what the current state would give it. */
    ghost predicate Synced()
      requires Valid()
      reads this
    {
      forall i :: 0 <= i < |cards| ==> InSync(cards[i], PropsFor(events[i], bookedEvents, useOptimization, renders))
    }

    /**
     * The initial state: nothing booked, empty log, tick 0, optimization on,
     * and one card per event, none of them drawn yet. The mount is the first
     * call of Render.
     */
    constructor (events: seq<EventItem>)
      ensures Valid()
      ensures this.events == events && |cards| == |events| && forall i :: 0 <= i < |cards| ==> cards[i] == Unmounted
      ensures bookedEvents == {} && logs == [] && tick == 0 && useOptimization && renders == 0
    {
      this.events := events;
      cards := seq(|events|, i => Unmounted);
      bookedEvents := {};
      logs := [];
      tick := 0;
      useOptimization := true;
      renders := 0;
    }

    /** addLog: append one entry to the window; nothing else changes. */
    method AddLog(message: string, kind: Logs.LogType, stamp: Logs.Stamp)
      requires Valid()
      modifies this
      ensures Valid()
      ensures logs == Logs.AddLog(old(logs), Logs.Entry(stamp, message, kind))
      ensures cards == old(cards) && bookedEvents == old(bookedEvents) && tick == old(tick)
      ensures useOptimization == old(useOptimization) && renders == old(renders)
    {
      logs := Logs.AddLog(logs, Logs.Entry(stamp, message, kind));
    }

    /** handleBookOptimized: one 'action' entry, then the id joins the booked set. */
    method HandleBookOptimized(id: EventId, stamp: Logs.Stamp)
      requires Valid()
      modifies this
      ensures Valid()
      ensures logs == Logs.AddLog(old(logs), Logs.Entry(stamp, BookMessage(id, true), Logs.Action))
      ensures bookedEvents == Bookings.Book(old(bookedEvents), id)
      ensures cards == old(cards) && tick == old(tick) && useOptimization == old(useOptimization) && renders == old(renders)
    {
      AddLog(BookMessage(id, true), Logs.Action, stamp);
      bookedEvents := Bookings.Book(bookedEvents, id);
    }

    /** handleBookUnoptimized: the same effect on the state, with its own message text. */
    method HandleBookUnoptimized(id: EventId, stamp: Logs.Stamp)
      requires Valid()
      modifies this
      ensures Valid()
      ensures logs == Logs.AddLog(old(logs), Logs.Entry(stamp, BookMessage(id, false), Logs.Action))
      ensures bookedEvents == Bookings.Book(old(bookedEvents), id)
      ensures cards == old(cards) && tick == old(tick) && useOptimization == old(useOptimization) && renders == old(renders)
    {
      AddLog(BookMessage(id, false), Logs.Action, stamp);
      bookedEvents := Bookings.Book(bookedEvents, id);
    }

    /** forceUpdate: tick goes up by one and one 'info' entry is logged. */
    method ForceUpdate(stamp: Logs.Stamp)
      requires Valid()
      modifies this
      ensures Valid()
      ensures tick == old(tick) + 1
      ensures logs == Logs.AddLog(old(logs), Logs.Entry(stamp, ForceUpdateMessage, Logs.Info))
      ensures cards == old(cards) && bookedEvents == old(bookedEvents)
      ensures useOptimization == old(useOptimization) && renders == old(renders)
    {
      tick := tick + 1;
      AddLog(ForceUpdateMessage, Logs.Info, stamp);
    }

    /** The toggle's onClick: the flag flips and one 'info' entry names its new value. */
    method ToggleOptimization(stamp: Logs.Stamp)
      requires Valid()
      modifies this
      ensures Valid()
      ensures useOptimization == !old(useOptimization)
      ensures logs == Logs.AddLog(old(logs), Logs.Entry(stamp, ToggleMessage(useOptimization), Logs.Info))
      ensures cards == old(cards) && bookedEvents == old(bookedEvents) && tick == old(tick) && renders == old(renders)
    {
      useOptimization := !useOptimization;
      AddLog(ToggleMessage(useOptimization), Logs.Info, stamp);
    }

    /** clearLogs: the log is empty afterwards, whatever it held. */
    method ClearLogs()
      requires Valid()
      modifies this
      ensures Valid()
      ensures logs == []
      ensures cards == old(cards) && bookedEvents == old(bookedEvents) && tick == old(tick)
      ensures useOptimization == old(useOptimization) && renders == old(renders)
    {
      logs := [];
    }

    /** What pressing card i's book button calls, judged from the card's last draw. */
    function Pressed(i: nat): Option<BookCall>
      requires i < |cards|
      reads this
    {
      if cards[i].drawn.Some? then Click(cards[i].drawn.value) else None
    }

    /**
     * A click on card i's book button: nothing when the button is disabled
     * (or not drawn yet), otherwise the handler the card holds runs with the
     * card's own id.
     */
    method ClickBook(i: nat, stamp: Logs.Stamp)
      requires Valid() && i < |cards|
      modifies this
      ensures Valid()
      ensures Pressed(i).None? ==> bookedEvents == old(bookedEvents) && logs == old(logs)
      ensures Pressed(i).Some? ==>
        && bookedEvents == Bookings.Book(old(bookedEvents), events[i].id)
        && logs == Logs.AddLog(old(logs), Logs.Entry(stamp, BookMessage(events[i].id, Pressed(i).value.handler.Optimized?), Logs.Action))
      ensures cards == old(cards) && tick == old(tick) && useOptimization == old(useOptimization) && renders == old(renders)
    {
      var call := Pressed(i);
      if call.Some? {
        if call.value.handler.Optimized? {
          HandleBookOptimized(call.value.id, stamp);
        } else {
          HandleBookUnoptimized(call.value.id, stamp);
        }
      }
    }

    /**
     * The render phase of one App render: the render number advances and
     * every card is offered the props the state now gives it (RenderOutcome
     * states what that does to the cards). The effects of the cards that
     * drew run afterwards, in RunRenderEffects.
     */
    method Render() returns (draws: seq<Draw>)
      requires Valid()
      modifies this
      ensures Valid() && Synced()
      ensures bookedEvents == old(bookedEvents) && tick == old(tick) && useOptimization == old(useOptimization)
      ensures logs == old(logs) && renders == old(renders) + 1
      ensures draws == Draws(old(cards), events, bookedEvents, useOptimization, renders) && cards == StatesAfter(draws)
    {
      var prev := renders;
      RenderOutcome(cards, events, bookedEvents, useOptimization, prev);
      draws := Draws(cards, events, bookedEvents, useOptimization, prev + 1);
      renders := prev + 1;
      cards := StatesAfter(draws);
    }

    /**
     * The commit phase: each card that drew runs its effect, which logs one
     * 'render' entry through logRender, in card order; nothing else changes.
     */
    method RunRenderEffects(stamps: seq<Logs.Stamp>, draws: seq<Draw>)
      requires Valid() && |stamps| == |draws|
      modifies this
      ensures Valid()
      ensures logs == Logs.AddAll(old(logs), RenderLog(stamps, draws))
      ensures cards == old(cards) && bookedEvents == old(bookedEvents) && tick == old(tick)
      ensures useOptimization == old(useOptimization) && renders == old(renders)
    {
      var emitted := RenderLog(stamps, draws);
      Logs.AddAllBounded(logs, emitted);
      logs := Logs.AddAll(logs, emitted);
    }

    /**
     * One App render and its commit, taken as one step: every card is
     * offered its new props, and the cards that drew log their 'render'
     * entries, one stamp per card.
     */
    method Update(stamps: seq<Logs.Stamp>) returns (draws: seq<Draw>)
      requires Valid() && |stamps| == |events|
      modifies this
      ensures Valid() && Synced()
      ensures draws == Draws(old(cards), events, bookedEvents, useOptimization, renders) && cards == StatesAfter(draws)
      ensures logs == Logs.AddAll(old(logs), RenderLog(stamps, draws))
      ensures bookedEvents == old(bookedEvents) && tick == old(tick) && useOptimization == old(useOptimization)
      ensures renders == old(renders) + 1
    {
      draws := Render();
      RunRenderEffects(stamps, draws);
    }
  }

}
