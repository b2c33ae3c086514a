/**
 * The refresh check at the end of each iteration of `main`'s loop
 * (interrupcao/interrupcao.c:169-172): if a redraw was requested, render the
 * current digit and clear the request.
 */
module MainLoop {
  import opened Glyphs
  import opened Render
  import opened Input

  /** One refresh check: the new globals and the words pushed to the FIFO. */
  function RefreshStep(s: State, r: bv8, g: bv8, b: bv8): (out: (State, seq<bv32>))
    requires InRange(s.number)
    ensures !out.0.refresh
    ensures out.0.number == s.number && out.0.lastPress == s.lastPress
    ensures s.refresh ==> |out.1| == NUM_PIXELS
    ensures !s.refresh ==> out.1 == []
  {
    if s.refresh then (s.(refresh := false), DigitFrame(s.number, r, g, b)) else (s, [])
  }

  /** Without a pending request the check changes nothing and sends nothing. */
  lemma IdleStep(s: State, r: bv8, g: bv8, b: bv8)
    requires InRange(s.number) && !s.refresh
    ensures RefreshStep(s, r, g, b) == (s, [])
  {
  }

  /** A second check right after the first has nothing left to draw. */
  lemma RefreshStepIdempotent(s: State, r: bv8, g: bv8, b: bv8)
    requires InRange(s.number)
    ensures var s1 := RefreshStep(s, r, g, b).0;
      RefreshStep(s1, r, g, b) == (s1, [])
  {
  }

  /**
   * An accepted edge is drawn on the next check: the words sent are the frame
   * of the digit the edge produced, even when the digit did not change.
   */
  lemma AcceptedEdgeIsDrawn(s: State, gpio: nat, now: u32, r: bv8, g: bv8, b: bv8)
    requires InRange(s.number) && Accepts(s.lastPress, now)
    ensures RefreshStep(OnEdge(s, gpio, now), r, g, b).1 == DigitFrame(NextNumber(gpio, s.number), r, g, b)
  {
  }

  /** A debounced edge on an idle display causes no redraw. */
  lemma RejectedEdgeIsNotDrawn(s: State, gpio: nat, now: u32, r: bv8, g: bv8, b: bv8)
    requires InRange(s.number) && !s.refresh && !Accepts(s.lastPress, now)
    ensures RefreshStep(OnEdge(s, gpio, now), r, g, b).1 == []
  {
  }
}
