/** The carousel's shared paging state (`UIStateModel`) and the drag-gesture
    state machine that mutates it.

    Screen coordinates are exact reals: the source's `Float`/`CGFloat`
    rounding is not modelled. A haptic impact is not performed, only counted. */
module CarouselState {

  /** Distance, in points, a drag must strictly pass to change the card. */
  const SwipeThreshold: real := 50.0

  /** The state shared by the carousel and the page indicator. */
  datatype UIState = UIState(activeCard: int, screenDrag: real)

  /** A drag-gesture event: the translation reported while dragging, the
      final translation when the finger lifts, or a cancellation (another
      gesture, such as the enclosing scroll view, takes over). A cancelled
      drag never reaches `.onEnded`; only the gesture's own `@GestureState`
      is reset, which nothing here reads. */
  datatype Gesture =
    | DragChanged(translation: real)
    | DragEnded(translation: real)
    | DragCancelled

  /** The state after one or more events, with the number of haptic impacts fired. */
  datatype Outcome = Outcome(state: UIState, haptics: nat)

  /** The state a new screen starts with. */
  function Initial(): UIState
  {
    UIState(0, 0.0)
  }

  /** The bounds invariant for a carousel of `n` cards. */
  predicate InBounds(s: UIState, n: int)
  {
    0 <= s.activeCard < n
  }

  /** The `.updating` handler: the live translation replaces the drag offset. */
  function DragUpdate(s: UIState, translation: real): (r: UIState)
    ensures r.screenDrag == translation
    ensures r.activeCard == s.activeCard
  {
    s.(screenDrag := translation)
  }

  /** The `.onEnded` handler, as written: reset the drag offset, then two
      independent `if`s, the second one reading the index the first may have
      changed. Each `if` that fires also fires one haptic. */
  function DragEnd(s: UIState, n: int, translation: real): (r: Outcome)
    ensures r.state.screenDrag == 0.0
    ensures translation < -SwipeThreshold && s.activeCard < n - 1 ==>
              r.state.activeCard == s.activeCard + 1 && r.haptics == 1
    ensures translation > SwipeThreshold && s.activeCard > 0 ==>
              r.state.activeCard == s.activeCard - 1 && r.haptics == 1
    ensures -SwipeThreshold <= translation <= SwipeThreshold ==>
              r.state.activeCard == s.activeCard && r.haptics == 0
    ensures translation < -SwipeThreshold && s.activeCard >= n - 1 ==>
              r.state.activeCard == s.activeCard && r.haptics == 0
    ensures translation > SwipeThreshold && s.activeCard <= 0 ==>
              r.state.activeCard == s.activeCard && r.haptics == 0
    ensures r.haptics == (if r.state.activeCard == s.activeCard then 0 else 1)
    ensures InBounds(s, n) ==> InBounds(r.state, n)
  {
    var reset := s.(screenDrag := 0.0);
    var forward := translation < -SwipeThreshold && reset.activeCard < n - 1;
    var s1 := if forward then reset.(activeCard := reset.activeCard + 1) else reset;
    var h1: nat := if forward then 1 else 0;
    var backward := translation > SwipeThreshold && s1.activeCard > 0;
    var s2 := if backward then s1.(activeCard := s1.activeCard - 1) else s1;
    var h2: nat := if backward then 1 else 0;
    Outcome(s2, h1 + h2)
  }

  /** The drag end as a single three-way decision ("else if"), the reading in
      which at most one page change can happen per gesture. */
  function DragEndDecision(s: UIState, n: int, translation: real): Outcome
  {
    if translation < -SwipeThreshold && s.activeCard < n - 1 then
      Outcome(UIState(s.activeCard + 1, 0.0), 1)
    else if translation > SwipeThreshold && s.activeCard > 0 then
      Outcome(UIState(s.activeCard - 1, 0.0), 1)
    else
      Outcome(UIState(s.activeCard, 0.0), 0)
  }

  /** The two sequential `if`s never both fire: no translation is both below
      -50 and above 50, so the code agrees with the three-way decision. */
  lemma DragEndIsDecision(s: UIState, n: int, translation: real)
    ensures DragEnd(s, n, translation) == DragEndDecision(s, n, translation)
  {
  }

  /** One gesture event. */
  function Step(s: UIState, n: int, g: Gesture): (r: Outcome)
    ensures g.DragChanged? ==> r.state.screenDrag == g.translation
    ensures g.DragEnded? ==> r.state.screenDrag == 0.0
    ensures g.DragCancelled? ==> r.state == s
    ensures r.haptics <= (if g.DragEnded? then 1 else 0)
    ensures -(r.haptics as int) <= r.state.activeCard - s.activeCard <= r.haptics
    ensures InBounds(s, n) ==> InBounds(r.state, n)
  {
    match g
    case DragChanged(t) => Outcome(DragUpdate(s, t), 0)
    case DragEnded(t) => DragEnd(s, n, t)
    case DragCancelled => Outcome(s, 0)
  }

  /** How many gesture ends a sequence of events holds. */
  function EndCount(gs: seq<Gesture>): nat
  {
    if |gs| == 0 then 0
    else (if gs[0].DragEnded? then 1 else 0) + EndCount(gs[1..])
  }

  /** A sequence of gesture events applied in order; the haptic counts add up. */
  function Run(s: UIState, n: int, gs: seq<Gesture>): (r: Outcome)
    ensures InBounds(s, n) ==> InBounds(r.state, n)
    ensures r.haptics <= EndCount(gs)
    ensures -(r.haptics as int) <= r.state.activeCard - s.activeCard <= r.haptics
    decreases |gs|
  {
    if |gs| == 0 then Outcome(s, 0)
    else
      var first := Step(s, n, gs[0]);
      var rest := Run(first.state, n, gs[1..]);
      Outcome(rest.state, first.haptics + rest.haptics)
  }

  /** Running `a` then `b` is running their concatenation. */
  lemma {:induction false} RunAppend(s: UIState, n: int, a: seq<Gesture>, b: seq<Gesture>)
    ensures Run(s, n, a + b).state == Run(Run(s, n, a).state, n, b).state
    ensures Run(s, n, a + b).haptics == Run(s, n, a).haptics + Run(Run(s, n, a).state, n, b).haptics
    decreases |a|
  {
    if |a| == 0 {
      assert a + b == b;
    } else {
      assert (a + b)[0] == a[0];
      assert (a + b)[1..] == a[1..] + b;
      RunAppend(Step(s, n, a[0]).state, n, a[1..], b);
    }
  }

  /** For a non-empty carousel the index stays in `[0, n)` from the initial
      state through any sequence of drag updates and drag ends. */
  lemma BoundsInvariant(n: int, gs: seq<Gesture>)
    requires n >= 1
    ensures InBounds(Run(Initial(), n, gs).state, n)
  {
  }

  /** The drag offset after a sequence of events is the translation of the
      last event when that was an update, 0 when it was an end, and the
      offset before it when it was a cancellation: a cancelled drag leaves the
      row displaced by the last translation seen. */
  lemma {:induction false} RunLastDrag(s: UIState, n: int, gs: seq<Gesture>)
    requires |gs| > 0
    ensures gs[|gs| - 1].DragEnded? ==> Run(s, n, gs).state.screenDrag == 0.0
    ensures gs[|gs| - 1].DragChanged? ==>
              Run(s, n, gs).state.screenDrag == gs[|gs| - 1].translation
    ensures gs[|gs| - 1].DragCancelled? ==>
              Run(s, n, gs).state == Run(s, n, gs[..|gs| - 1]).state
  {
    var init := gs[..|gs| - 1];
    var last := gs[|gs| - 1];
    assert gs == init + [last];
    RunAppend(s, n, init, [last]);
    var mid := Run(s, n, init).state;
    assert [last][1..] == [];
    assert Run(mid, n, [last]).state == Step(mid, n, last).state;
  }

  /** Updates and cancellations alone never move the card and fire no
      haptic, however many. */
  lemma {:induction false} UpdatesKeepCard(s: UIState, n: int, gs: seq<Gesture>)
    requires forall i :: 0 <= i < |gs| ==> !gs[i].DragEnded?
    ensures Run(s, n, gs).state.activeCard == s.activeCard
    ensures Run(s, n, gs).haptics == 0
    decreases |gs|
  {
    if |gs| > 0 {
      UpdatesKeepCard(Step(s, n, gs[0]).state, n, gs[1..]);
    }
  }
}
