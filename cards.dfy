/**
 * One EventCard: the React.memo comparator that gates its redraws, the
 * render counter it keeps in a ref, the 'render' message its effect sends
 * after each draw, and the book button.
 */
module Cards {

  import opened Options
  import opened Events
  import Decimal

  /**
   * The identity of an onBook function value. The useCallback handler is
   * created once and is always the same value; the inline handler is a new
   * closure in every App render, named by the number of that render.
   */
  datatype BookHandler = Optimized | Inline(render: nat)

  /**
   * The props App passes to a card. logRender is an inline closure too, so
   * its identity is the number of the App render that created it.
   */
  datatype Props = Props(event: EventItem, isBooked: bool, onBook: BookHandler, logRender: nat)

  /** The part of the props the comparator looks at. */
  datatype Snapshot = Snapshot(id: EventId, booked: bool, handler: BookHandler)

  function SnapshotOf(p: Props): Snapshot {
    Snapshot(p.event.id, p.isBooked, p.onBook)
  }

  /** The custom comparator: true means "equal, skip the redraw". */
  predicate PropsAreEqual(prev: Props, next: Props) {
    && prev.event.id == next.event.id
    && prev.isBooked == next.isBooked
    && prev.onBook == next.onBook
  }

  /** The comparator skips exactly when the two snapshots agree. */
  lemma SkipIffSameSnapshot(prev: Props, next: Props)
    ensures PropsAreEqual(prev, next) <==> SnapshotOf(prev) == SnapshotOf(next)
  {
  }

  /** Props compared with themselves always mean skip, and the comparator is an equivalence. */
  lemma ComparatorIsEquivalence(p: Props, q: Props, r: Props)
    ensures PropsAreEqual(p, p)
    ensures PropsAreEqual(p, q) ==> PropsAreEqual(q, p)
    ensures PropsAreEqual(p, q) && PropsAreEqual(q, r) ==> PropsAreEqual(p, r)
  {
  }

  /** A new onBook reference forces a redraw even when the id and the booked flag are unchanged. */
  lemma NewHandlerForcesRedraw(prev: Props, next: Props)
    requires prev.event.id == next.event.id && prev.isBooked == next.isBooked
    ensures !PropsAreEqual(prev, next) <==> prev.onBook != next.onBook
  {
  }

  /** A fresh logRender closure, or any event field other than the id, never forces a redraw on its own. */
  lemma IgnoresLogRenderAndDetails(prev: Props, event: EventItem, logRender: nat)
    requires event.id == prev.event.id
    ensures PropsAreEqual(prev, Props(event, prev.isBooked, prev.onBook, logRender))
  {
  }

  /** "EventCard [<id>] rendered. (Count: <n>)" */
  const RenderPrefix: string := "EventCard ["
  const RenderInfix: string := "] rendered. (Count: "
  const RenderSuffix: string := ")"

  function RenderMessage(id: EventId, count: nat): string {
    RenderPrefix + RenderBody(id, count) + RenderSuffix
  }

  /** What stands between the prefix and the closing parenthesis. */
  function RenderBody(id: EventId, count: nat): string {
    id + RenderInfix + Decimal.FromNat(count)
  }

  /** How many digits s ends with. */
  function TrailingDigits(s: string): (k: nat)
    ensures k <= |s| && Decimal.AllDigits(s[|s| - k..])
    decreases |s|
  {
    if s == [] || !Decimal.IsDigit(s[|s| - 1]) then 0
    else
      var init := s[..|s| - 1];
      var k := TrailingDigits(init);
      assert s[|s| - (k + 1)..] == init[|init| - k..] + [s[|s| - 1]];
      k + 1
  }

  /** Recovers the card id and the count from a render message, or None for any other text. */
  function ParseRenderMessage(m: string): Option<(EventId, nat)> {
    if |m| < |RenderPrefix| + |RenderSuffix| || m[..|RenderPrefix|] != RenderPrefix || m[|m| - 1..] != RenderSuffix then None
    else ParseRenderBody(m[|RenderPrefix|..|m| - 1])
  }

  /** The part between the brackets of the prefix and the closing parenthesis: "<id>] rendered. (Count: <n>". */
  function ParseRenderBody(body: string): Option<(EventId, nat)> {
    var k := TrailingDigits(body);
    var rest := body[..|body| - k];
    if k == 0 || |rest| < |RenderInfix| || rest[|rest| - |RenderInfix|..] != RenderInfix then None
    else Some((rest[..|rest| - |RenderInfix|], Decimal.ToNat(body[|body| - k..])))
  }

  lemma {:induction false} TrailingDigitsAfterSeparator(a: string, d: string)
    requires a != [] && !Decimal.IsDigit(a[|a| - 1]) && Decimal.AllDigits(d)
    ensures TrailingDigits(a + d) == |d|
    decreases |d|
  {
    if d == [] {
      assert a + d == a;
    } else {
      assert (a + d)[..|a + d| - 1] == a + d[..|d| - 1];
      TrailingDigitsAfterSeparator(a, d[..|d| - 1]);
    }
  }

  /** The framing of a render message is stripped exactly. */
  lemma UnwrapRenderFrame(body: string)
    ensures ParseRenderMessage(RenderPrefix + body + RenderSuffix) == ParseRenderBody(body)
  {
    var m := RenderPrefix + body + RenderSuffix;
    assert m[..|RenderPrefix|] == RenderPrefix;
    assert m[|m| - 1..] == RenderSuffix;
    assert m[|RenderPrefix|..|m| - 1] == body;
  }

  /** The body gives back the id before the infix and the value of the digits after it. */
  lemma ParseRenderBodyRoundTrip(id: EventId, digits: string)
    requires digits != [] && Decimal.AllDigits(digits)
    ensures ParseRenderBody(id + RenderInfix + digits) == Some((id, Decimal.ToNat(digits)))
  {
    var rest := id + RenderInfix;
    var body := rest + digits;
    TrailingDigitsAfterSeparator(rest, digits);
    assert body[..|body| - |digits|] == rest;
    assert body[|body| - |digits|..] == digits;
    assert rest[|rest| - |RenderInfix|..] == RenderInfix;
    assert rest[..|rest| - |RenderInfix|] == id;
  }

  /** A render message carries the card's id and its count, both recoverable from the text. */
  lemma ParseRenderMessageRoundTrip(id: EventId, count: nat)
    ensures ParseRenderMessage(RenderMessage(id, count)) == Some((id, count))
  {
    UnwrapRenderFrame(RenderBody(id, count));
    ParseRenderBodyRoundTrip(id, Decimal.FromNat(count));
    Decimal.ToNatFromNat(count);
  }

  /**
   * A card instance: the props of its last actual draw (None before the
   * first one) and the value of its renderCount ref.
   */
  datatype CardState = CardState(drawn: Option<Props>, renderCount: nat)

  /** useRef(0): a card that has not been drawn yet. */
  const Unmounted: CardState := CardState(None, 0)

  /** React.memo never compares on the first draw; afterwards it skips when the comparator says equal. */
  predicate SkipRender(drawn: Option<Props>, next: Props) {
    drawn.Some? && PropsAreEqual(drawn.value, next)
  }

  /** What one offer of new props does to a card: its new state, and whether it drew. */
  datatype Draw = Draw(state: CardState, drew: bool)

  function Step(s: CardState, next: Props): Draw {
    if SkipRender(s.drawn, next) then Draw(s, false)
    else Draw(CardState(Some(next), s.renderCount + 1), true)
  }

  /** The message the card's effect logs after a draw that left it in state s. */
  function EffectMessage(s: CardState): string
    requires s.drawn.Some?
  {
    RenderMessage(s.drawn.value.event.id, s.renderCount)
  }

  /**
   * One offer of props: the card draws exactly when the gate does not skip;
   * a draw adds one to the counter and its message names the card and
   * carries the new count; a skip changes nothing.
   */
  lemma StepCountsDraws(s: CardState, next: Props)
    ensures var d := Step(s, next);
      && (d.drew <==> !SkipRender(s.drawn, next))
      && d.state.renderCount == (if d.drew then s.renderCount + 1 else s.renderCount)
      && (!d.drew ==> d.state == s)
      && (d.drew ==> d.state.drawn == Some(next) &&
                     ParseRenderMessage(EffectMessage(d.state)) == Some((next.event.id, d.state.renderCount)))
  {
    ParseRenderMessageRoundTrip(next.event.id, s.renderCount + 1);
  }

  /** The card after a run of offers, with the messages it emitted in order. */
  datatype Trace = Trace(state: CardState, messages: seq<string>)

  function Run(s: CardState, offers: seq<Props>): Trace
    decreases |offers|
  {
    if offers == [] then Trace(s, [])
    else
      var t := Run(s, offers[..|offers| - 1]);
      var d := Step(t.state, offers[|offers| - 1]);
      Trace(d.state, t.messages + if d.drew then [EffectMessage(d.state)] else [])
  }

  /**
   * Over any run the counter never decreases: it grows by exactly the
   * number of messages, and the k-th message carries the count s.renderCount + k + 1.
   */
  lemma {:induction false} RunNumbersDraws(s: CardState, offers: seq<Props>)
    ensures Run(s, offers).state.renderCount == s.renderCount + |Run(s, offers).messages|
    ensures forall k :: 0 <= k < |Run(s, offers).messages| ==>
      ParseRenderMessage(Run(s, offers).messages[k]).Some? &&
      ParseRenderMessage(Run(s, offers).messages[k]).value.1 == s.renderCount + k + 1
    decreases |offers|
  {
    if offers != [] {
      var pre, last := offers[..|offers| - 1], offers[|offers| - 1];
      var t := Run(s, pre);
      var d := Step(t.state, last);
      var ms := t.messages + if d.drew then [EffectMessage(d.state)] else [];
      assert Run(s, offers) == Trace(d.state, ms);
      RunNumbersDraws(s, pre);
      StepCountsDraws(t.state, last);
      forall k | 0 <= k < |ms|
        ensures ParseRenderMessage(ms[k]).Some? && ParseRenderMessage(ms[k]).value.1 == s.renderCount + k + 1
      {
        if k < |t.messages| {
          assert ms[k] == t.messages[k];
        }
      }
    }
  }

  /** The book button is disabled exactly when the card is booked. */
  predicate ButtonDisabled(p: Props) {
    p.isBooked
  }

  /** A call of onBook with an id. */
  datatype BookCall = BookCall(handler: BookHandler, id: EventId)

  /**
   * `onClick={() => onBook(event.id)}` on a button with `disabled={isBooked}`:
   * a click calls the card's own handler with the card's own id, and a
   * disabled button ignores the click.
   */
  function Click(p: Props): (call: Option<BookCall>)
    ensures call.Some? <==> !ButtonDisabled(p)
    ensures call.Some? ==> call.value == BookCall(p.onBook, p.event.id)
  {
    if p.isBooked then None else Some(BookCall(p.onBook, p.event.id))
  }

  /** A mounted card instance. */
  class EventCard {

    /** The props of the last actual draw; a skipped redraw leaves them. */
    var drawn: Option<Props>
    /** renderCount.current */
    var renderCount: nat

    function State(): CardState
      reads this
    {
      CardState(drawn, renderCount)
    }

    constructor ()
      ensures State() == Unmounted
    {
      drawn := None;
      renderCount := 0;
    }

    /**
     * React offers new props: the comparator decides; on a draw the counter
     * goes up by one and the draw's 'render' message is returned for the
     * effect to log.
     */
    method Render(next: Props) returns (message: Option<string>)
      modifies this
      ensures Draw(State(), message.Some?) == Step(old(State()), next)
      ensures message.Some? ==> drawn.Some? && message.value == EffectMessage(State())
    {
      if drawn.Some? && PropsAreEqual(drawn.value, next) {
        message := None;
      } else {
        renderCount := renderCount + 1;
        drawn := Some(next);
        message := Some(RenderMessage(next.event.id, renderCount));
      }
    }
  }

}
