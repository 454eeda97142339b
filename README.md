# EventFlow: the booking demo's state and render gate, in Dafny

EventFlow is a small React demo of `useCallback` and `React.memo`. An
`App` component keeps four pieces of state:

- the set of booked event ids;
- a console log buffer that holds at most the last 50 entries;
- a `tick` counter that a button bumps to force a parent re-render;
- the `useOptimization` flag.

It draws one `EventCard` per mock event. Each card gets:

- the event;
- its booked flag;
- an `onBook` handler. It is the stable `useCallback` handler when the flag is on, and a closure created anew in every App render when the flag is off;
- a `logRender` closure.

The card is wrapped in `React.memo` with a custom comparator. The comparator skips a redraw exactly when the id, the booked flag and the `onBook` reference are all unchanged. Every actual draw adds one to the card's `renderCount` ref. After the draw, an effect sends `EventCard [<id>] rendered. (Count: <n>)` to the log.

The model, module by module:

- `Options`: the Option datatype.
- `Events`: the `EventItem` record and the six mock events. Their ids are pairwise distinct, which the lemma `MockIdsDistinct` proves.
- `Logs`: the `LogEntry` record and the `addLog` updater `prev => [...prev.slice(-49), entry]`. It is modelled as the pure function `AddLog` plus `AddAll` (a run of appends), with window lemmas.
- `Bookings`: the copy-the-set-then-add updater shared by both booking handlers, with union, monotonicity and idempotence lemmas.
- `Decimal`: how a template literal writes a count (`${n}`), and how to read it back.
- `Cards`:
  - the comparator `PropsAreEqual` and its lemmas;
  - the 'render' message, with a parser that recovers the card's id and its count from the text;
  - the value-level card step `Step` (skip, or draw and count one more), a run of steps `Run`, and the button wiring `Click`;
  - `class EventCard`, one card instance. Its `renderCount` field is updated in place, and its `Render` method is proved against `Step`.
- `Application`:
  - handler selection (`SelectHandler`) and the props each App render hands each card (`PropsFor`);
  - `class App` with the four state fields and one event-handler method per event: `AddLog`, `HandleBookOptimized`, `HandleBookUnoptimized`, `ForceUpdate`, `ToggleOptimization`, `ClearLogs` and `ClickBook`;
  - the App render, as `Render` (render phase), `RunRenderEffects` (commit phase, the cards' effects) and `Update` (both as one step);
  - value-level lemmas stating what one render does to every card.
- `Walkthrough`: a walkthrough built around the demo's help text (App.tsx:127-133), which only describes a forced parent render with useCallback ON and OFF. It runs on the six mock events:
  1. mount;
  2. book the first event;
  3. force three parent renders with useCallback ON;
  4. switch it OFF;
  5. force one more parent render.

  Each step is followed by one App render. The proof shows the resulting counters: `[2,1,1,1,1,1]` after the forced renders with the flag ON, `[3,2,2,2,2,2]` after the switch and `[4,3,3,3,3,3]` after the last forced render. These are the counts per modelled App render. The further App renders that the cards' own log entries cause are left out (see "## Left out"), and with the flag OFF they never stop.

Handler identity is modelled as a token:
- `BookHandler.Optimized` is the single `useCallback` function.
- `BookHandler.Inline(k)` is the closure created in App render number `k`. Two different renders never share it.
- The `logRender` closure is likewise the number of the App render that made it.

The App's `renders` field counts App renders, so it can name those closures.

## Model

| member | source | states |
|---|---|---|
| Logs.LastN | App.tsx:23 | `prev.slice(-k)` for the k >= 1 used here: the whole buffer when it holds at most k entries, otherwise its last k |
| Logs.AddLog | App.tsx:23 | the buffer grows by one until it holds 50 entries, then stays at 50, and its last entry is the new one |
| Logs.AddLogIsWindow | App.tsx:23 | one append gives the last 50 entries of the old buffer plus the new entry, that is the old buffer's last 49 (all of it when shorter) followed by the new entry, evicting the oldest first |
| Logs.AddAllIsWindow | App.tsx:23 | any run of appends to a buffer of at most 50 entries leaves exactly the last 50 of old buffer plus new entries, in order |
| Logs.WindowFromEmpty | App.tsx:23 | from an empty buffer, n appends leave exactly the last min(n, 50) entries in insertion order |
| Logs.AddAllBounded | App.tsx:23 | the buffer never holds more than 50 entries once anything was appended |
| Bookings.Book | App.tsx:34-38 | the new set holds the booked id, every previously booked id, and nothing else |
| Bookings.BookIdempotent | App.tsx:35-36 | booking an id already in the set leaves the set unchanged |
| Bookings.BookAllIsUnion | App.tsx:47-51 | any run of bookings yields the old set united with the booked ids: the set only grows, order and repetition do not matter |
| Bookings.BookAllTwice | App.tsx:34-38 | repeating a run of bookings changes nothing |
| Decimal.FromNat | components/EventCard.tsx:18 | the count in the message is a non-empty string of decimal digits with a leading zero only for zero |
| Decimal.ToNatFromNat | components/EventCard.tsx:18 | reading back the written count gives the count |
| Decimal.FromNatInjective | components/EventCard.tsx:18 | different counts are written differently |
| Events.MockIdsDistinct | constants.ts:3-58 | the six mock events have pairwise distinct ids, the first being "e1" |
| Cards.PropsAreEqual | components/EventCard.tsx:93-97 | the custom comparator: true ("equal, skip the redraw") exactly when event.id, isBooked and the onBook reference agree; logRender and the other event fields are not compared |
| Cards.SkipIffSameSnapshot | components/EventCard.tsx:93-97 | the comparator says skip exactly when id, booked flag and onBook reference all agree |
| Cards.ComparatorIsEquivalence | components/EventCard.tsx:93-97 | the comparator is reflexive (props compared with themselves mean skip), symmetric and transitive |
| Cards.NewHandlerForcesRedraw | components/EventCard.tsx:91-96 | with id and booked flag unchanged, the card redraws exactly when the onBook reference changed |
| Cards.IgnoresLogRenderAndDetails | components/EventCard.tsx:94-96 | a fresh logRender closure or a change to any event field other than the id never forces a redraw |
| Cards.RenderMessage | components/EventCard.tsx:18 | the text `EventCard [<id>] rendered. (Count: <n>)` with the count written in decimal; ParseRenderMessageRoundTrip shows both are recoverable |
| Cards.TrailingDigits | components/EventCard.tsx:18 | the count found at the end of a message text is a run of digits inside the text |
| Cards.UnwrapRenderFrame | components/EventCard.tsx:18 | the parser strips exactly the message's fixed prefix and closing parenthesis |
| Cards.ParseRenderBodyRoundTrip | components/EventCard.tsx:18 | between the frame, the id before "] rendered. (Count: " and the number after it are recovered |
| Cards.ParseRenderMessageRoundTrip | components/EventCard.tsx:18 | every render message determines the card's id and the count it carries |
| Cards.SkipRender | components/EventCard.tsx:88-98 | the React.memo gate (wrapping at line 13): a card that has not drawn yet always draws, without consulting the comparator; after that it skips exactly when the comparator says the last drawn props and the new ones are equal |
| Cards.Step | components/EventCard.tsx:13-17 | one offer of props: React.memo skips when the card has drawn and the comparator says equal, leaving the card as it was; otherwise the card draws with the new props and renderCount + 1 (StepCountsDraws) |
| Cards.StepCountsDraws | components/EventCard.tsx:13-18 | one offer of props draws exactly when the gate does not skip; a draw adds one to the counter and its message carries the id and the new count; a skip changes nothing |
| Cards.RunNumbersDraws | components/EventCard.tsx:14-26 | over any run of offers the counter never decreases, rises by exactly the number of messages, and the k-th message carries count initial + k + 1 |
| Cards.ButtonDisabled | components/EventCard.tsx:67 | `disabled={isBooked}`: the book button is disabled exactly when the props say the event is booked |
| Cards.Click | components/EventCard.tsx:66-67 | a click calls onBook exactly when the button is not disabled (not booked), and then with the card's own handler and own id |
| Cards.EventCard.constructor | components/EventCard.tsx:14 | a new card has not drawn and its counter is 0 |
| Cards.EventCard.Render | components/EventCard.tsx:13-26 | the instance's new state and whether it drew are those of Step, and a draw returns the message for the effect, carrying the new count |
| Application.BookMessage | App.tsx:31-44 | the 'action' text of the handler: "Booking Action: ID <id>" for the useCallback one, "Booking Action (Unoptimized): ID <id>" for the inline one |
| Application.ToggleMessage | App.tsx:98 | "Switched optimization to ON" or "... OFF", naming the flag's new value |
| Application.ToggleMessageNamesValue | App.tsx:98 | the toggle's message tells the new value ON from OFF |
| Application.BookMessagesDiffer | App.tsx:31-44 | the two booking handlers' messages for the same id differ |
| Application.SelectHandler | App.tsx:63 | the useCallback handler when the flag is on, else the inline closure of the current App render |
| Application.PropsFor | App.tsx:147-154 | the props one App render gives the card of an event: the event, whether its id is booked, the selected handler, and that render's logRender closure |
| Application.SelectHandlerIdentity | App.tsx:63 | with the flag on every App render passes the same handler; with it off two renders pass the same handler only if they are the same render |
| Application.StableHandlerSkipsParentOnlyRender | App.tsx:147-154 | with the flag on, a card whose last draw matches the state skips any later App render in which the booked set is unchanged (SyncedCardRedraw states it per booked flag) |
| Application.InlineHandlerForcesRedraw | App.tsx:43-63 | with the flag off, a card drawn in an earlier App render always redraws |
| Application.MessageEntry | App.tsx:153 | the entry one card's effect adds through its `logRender` closure `(msg) => addLog(msg, 'render')`: a 'render' entry carrying the card's message with its new count when the card drew, and nothing when it skipped |
| Application.RenderLog | components/EventCard.tsx:23-26 | the entries the cards' effects log after one App render, in card order, one 'render' entry for each card that drew |
| Application.RenderLogLength | components/EventCard.tsx:23-26 | the cards' effects log only 'render' entries, exactly as many as there are cards that drew |
| Application.RenderLogEntry | components/EventCard.tsx:23-26 | a card that drew has its own message (its id and new count) in the log, right after the entries of the drawing cards before it |
| Application.RenderLogContents | App.tsx:153 | the cards' effects log exactly one 'render' entry per card that drew and nothing else; card i's entry comes after those of the drawing cards before it and carries its own message (id and new count); no draw means no entry |
| Application.FirstRenderMounts | App.tsx:147-155 | on the first App render every card draws with count 1, and the log gets one entry per card, in card order, each carrying count 1 |
| Application.DrawOutcome | App.tsx:147-155 | after an offer the card is in sync with it; with the flag on, a card whose last draw matches what the same state gave it in the previous render (its booked flag unchanged) does not draw, and SyncedCardRedraw covers a changed flag; with the flag off, or before its first draw, it counts one more |
| Application.SyncedButton | App.tsx:151 | a card in sync with the state shows its button disabled exactly when its event is booked |
| Application.BookedButtonStaysDisabled | components/EventCard.tsx:66-67 | a booked card's button stays disabled: since bookings only grow, any later App render leaves the card in sync with props that say booked, its button disabled and a click calling nothing |
| Application.SyncedCardRedraw | App.tsx:147-154 | a card in sync with one render redraws in the next exactly when its booked flag changed or an inline handler is involved, and then counts one more |
| Application.SyncedRender | App.tsx:147-155 | the same for every card of an App render at once |
| Application.InlineRenderLogsEveryCard | App.tsx:147-155 | with the flag off (inline handler, App.tsx:63), every card draws in every App render, so each App render logs one 'render' entry per card; each of those entries is a `setLogs` call that causes another App render |
| Application.Draws | App.tsx:147-155 | `MOCK_EVENTS.map` in one App render: each card, from its own state, is offered the props for its own event (DrawsPointwise) |
| Application.DrawsPointwise | App.tsx:147-154 | card i's draw is its own step, from its own state, on the props for its own event, for every card |
| Application.RenderOutcome | App.tsx:147-155 | one App render leaves every card in sync with its new props; with the flag on and all cards in sync, no card draws and the cards are unchanged; with the flag off every card counts one more |
| Application.App.constructor | App.tsx:9-13 | the initial state: nothing booked, empty log, tick 0, optimization on, no card drawn |
| Application.App.AddLog | App.tsx:16-24 | the log becomes the window append of the new entry; nothing else changes |
| Application.App.HandleBookOptimized | App.tsx:30-39 | one 'action' entry "Booking Action: ID <id>" is appended and the id is booked; nothing else changes |
| Application.App.HandleBookUnoptimized | App.tsx:43-52 | the same effect on the booked set with the message "Booking Action (Unoptimized): ID <id>" |
| Application.App.ForceUpdate | App.tsx:55-58 | tick rises by exactly 1 and one 'info' entry is appended; bookings and the flag are unchanged |
| Application.App.ToggleOptimization | App.tsx:96-99 | the flag is negated and one 'info' entry naming the new value is appended |
| Application.App.ClearLogs | App.tsx:60 | the log is empty whatever it held; nothing else changes |
| Application.App.Pressed | components/EventCard.tsx:66-67 | the `onClick` closure of card i as last drawn: nothing for a card not drawn yet, otherwise the call Click gives for its last drawn props (none when the button is disabled) |
| Application.App.ClickBook | components/EventCard.tsx:66-67 | a click on a disabled button changes nothing; otherwise the handler the card holds books the card's own id and logs its own message |
| Application.App.Render | App.tsx:147-155 | the App render offers every card its props from the current state, all cards end in sync, and nothing else but the render number changes |
| Application.App.RunRenderEffects | components/EventCard.tsx:23-26 | each card that drew appends its render message to the log, in card order; nothing else changes |
| Application.App.Update | App.tsx:147-155 | one App render and its commit: the cards' new states and the log entries they add |
| Walkthrough.Mount | App.tsx:147-155 | the first render of a fresh App draws every card once |
| Walkthrough.BookFirst | App.tsx:30-39 | with the flag on, booking the first event (the useCallback handler) makes the next App render (App.tsx:147-155) redraw that card alone, since only its isBooked changed (EventCard.tsx:95), and disables its button |
| Walkthrough.ForceStable | App.tsx:130 | with useCallback ON a forced parent render redraws no card |
| Walkthrough.SwitchOff | App.tsx:96-99 | switching useCallback OFF logs the 'info' entry and, through the one App render it causes, redraws every card |
| Walkthrough.ForceUnstable | App.tsx:132 | with useCallback OFF a forced parent render, one App render, redraws every card |
| Walkthrough.BookThenSwitch | App.tsx:127-133 | the whole walkthrough on the six mock events: counters [2,1,1,1,1,1] after three forced renders with the flag on, [3,2,2,2,2,2] after switching off, [4,3,3,3,3,3] after one more forced render; at the end "e1" is booked and its button disabled; counts are per modelled App render, leaving out the renders the cards' log entries cause |

## Left out

- Log ids (`Math.random`) and timestamps (`toLocaleTimeString`) are opaque `Stamp` inputs to every operation that logs.
- `console.log` output, the JSX markup, styles and icons are not modelled.
- components/ConsoleViewer.tsx (display and auto-scroll only), index.tsx (DOM mounting) and types.ts (mirrored as datatypes) are not part of this model.
- React's scheduler, state batching, effect timing and StrictMode double calls are not modelled. An event handler is one method, and the App render after it is a separate call (`Render` then `RunRenderEffects`, or both as `Update`).
- The feedback loop in which a card's 'render' entry, added through `setLogs`, causes another App render is not modelled. With the flag on it settles: after such a render every card is in sync, and the next render draws nothing and logs nothing (`Application.RenderOutcome`). With the flag off it never settles. Every App render redraws every card and logs one entry per card (`Application.InlineRenderLogsEveryCard`), and those entries cause the next App render. In the source the counters therefore keep rising while the flag is off.
- Application.App: holds each card's state as a `CardState` value in a sequence rather than as `EventCard` objects. `EventCard` models one instance on its own, and `App.Render` uses the same `Step` function its `Render` method is proved against. Aliasing between card instances is therefore not modelled.
- Application.App.ToggleOptimization: negates the flag the App holds now. The source negates the value captured by the render in which the button was clicked (`setUseOptimization(!useOptimization)`, not a functional update). The two agree as long as an App render separates two clicks, which the model's event/render alternation assumes.
- The mount is the App's first `Render`. Unmounting and remounting a card (a reset of its counter) never happens in the demo and is not modelled.
- Counting from before the switch, switching useCallback OFF and then forcing one parent render raises every counter by 2, not 1. The forced render adds one (App.tsx:132). The switch itself re-renders App with a new inline handler and adds the other (`Walkthrough.SwitchOff`). These counts are per modelled App render. The feedback loop above is left out, and in the source it raises the counters further without end while the flag is off.
- Decimal.FromNat / Cards.Step / Application.App.ForceUpdate: counts and `tick` are JavaScript numbers (doubles). The model uses unbounded naturals and so assumes they stay below 2^53, where `+ 1` is exact and `${n}` prints plain digits. From 2^53 on `+ 1` stops changing the value, and from 1e21 on `${n}` uses exponent notation ("1e+21").
