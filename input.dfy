/**
 * The button interrupt handler `gpio_irq_handler`
 * (interrupcao/interrupcao.c:116-131) as a step function on the three globals
 * it shares with the main loop, and what runs of edges do to them.
 */
module Input {

  /** Pin numbers of the two buttons (interrupcao/interrupcao.c:14-15). */
  const BUTTON_UP: nat := 5
  const BUTTON_DOWN: nat := 6

  /** Minimum time between accepted edges, in microseconds (200 ms). */
  const TEMPO_DEBOUNCE: int := 200000

  /** 2^32: `uint32_t` arithmetic is taken modulo this. */
  const TWO_TO_32: int := 0x1_0000_0000

  /** A `uint32_t` value, such as the truncated microsecond clock. */
  newtype u32 = x: int | 0 <= x < 0x1_0000_0000

  /**
   * The globals `current_number`, `last_press_time` and `refresh_display`
   * (interrupcao/interrupcao.c:21-23).
   */
  datatype State = State(number: int, lastPress: u32, refresh: bool)

  /** Their static initial values. */
  const BOOT: State := State(0, 0, false)

  /** The range `current_number` is kept in. */
  predicate InRange(n: int) { 0 <= n <= 9 }

  /** `current_time - last_press_time`, computed on `uint32_t` and so taken modulo 2^32. */
  function Elapsed(last: u32, now: u32): (e: u32)
    ensures last <= now ==> e as int == now as int - last as int
    ensures now < last ==> e as int == now as int - last as int + TWO_TO_32
  {
    ((now as int - last as int) % TWO_TO_32) as u32
  }

  /** The debounce test: an edge counts only if more than 200 ms have passed. */
  predicate Accepts(last: u32, now: u32)
  {
    Elapsed(last, now) as int > TEMPO_DEBOUNCE
  }

  /**
   * The digit after an accepted edge: the up button is a saturating increment,
   * the down button a saturating decrement, any other pin leaves it.
   */
  function NextNumber(gpio: nat, n: int): (m: int)
    ensures InRange(n) ==> InRange(m)
    ensures InRange(n) && gpio == BUTTON_UP ==> m == if n == 9 then 9 else n + 1
    ensures InRange(n) && gpio == BUTTON_DOWN ==> m == if n == 0 then 0 else n - 1
    ensures gpio != BUTTON_UP && gpio != BUTTON_DOWN ==> m == n
  {
    if gpio == BUTTON_UP && n < 9 then n + 1
    else if gpio == BUTTON_DOWN && n > 0 then n - 1
    else n
  }

  /**
   * One call of the handler for pin `gpio` at clock value `now`. A debounced
   * edge changes nothing at all; an accepted one records `now`, moves the
   * digit and requests a redraw, whether or not the digit moved.
   */
  function OnEdge(s: State, gpio: nat, now: u32): (t: State)
    ensures !Accepts(s.lastPress, now) ==> t == s
    ensures Accepts(s.lastPress, now) ==>
      t.lastPress == now && t.refresh && t.number == NextNumber(gpio, s.number)
  {
    if Accepts(s.lastPress, now) then
      State(NextNumber(gpio, s.number), now, true)
    else
      s
  }

  /** An edge is rejected exactly when it falls in the 200 ms after the last accepted one, wrapping at 2^32. */
  lemma RejectedWindow(last: u32, now: u32)
    ensures !Accepts(last, now) <==>
      (last <= now && now as int <= last as int + TEMPO_DEBOUNCE) ||
      (now < last && now as int + TWO_TO_32 <= last as int + TEMPO_DEBOUNCE)
  {
  }

  /** Since the timestamp starts at 0, every edge in the first 200 ms after boot is ignored. */
  lemma EarlyEdgesIgnored(gpio: nat, now: u32)
    requires now as int <= TEMPO_DEBOUNCE
    ensures OnEdge(BOOT, gpio, now) == BOOT
  {
  }

  /**
   * The debounce timestamp is shared by both buttons: an accepted edge on
   * either button blocks an edge on either button for the next 200 ms.
   */
  lemma SharedDebounce(s: State, gpio1: nat, t1: u32, gpio2: nat, t2: u32)
    requires Accepts(s.lastPress, t1)
    requires Elapsed(t1, t2) as int <= TEMPO_DEBOUNCE
    ensures OnEdge(OnEdge(s, gpio1, t1), gpio2, t2) == OnEdge(s, gpio1, t1)
  {
  }

  /** The shared window also spans a wrap of the 32-bit clock. */
  lemma SharedDebounceAcrossWrap()
    ensures OnEdge(OnEdge(BOOT, BUTTON_UP, 0xFFFF_FFF0), BUTTON_DOWN, 100)
      == OnEdge(BOOT, BUTTON_UP, 0xFFFF_FFF0)
  {
  }

  /** Pressing up at 9 or down at 0 keeps the digit but still requests a redraw. */
  lemma PressAtBound(s: State, gpio: nat, now: u32)
    requires Accepts(s.lastPress, now)
    requires (gpio == BUTTON_UP && s.number == 9) || (gpio == BUTTON_DOWN && s.number == 0)
    ensures OnEdge(s, gpio, now) == State(s.number, now, true)
  {
  }

  /** An edge: the pin that fired and the clock value the handler read. */
  datatype Edge = Edge(gpio: nat, time: u32)

  /** The state after the handler has run for each edge in turn. */
  function Run(s: State, edges: seq<Edge>): State
    decreases |edges|
  {
    if edges == [] then s else Run(OnEdge(s, edges[0].gpio, edges[0].time), edges[1..])
  }

  /** Whatever edges arrive, whenever they arrive, the digit stays within 0..9. */
  lemma {:induction false} RunKeepsRange(s: State, edges: seq<Edge>)
    requires InRange(s.number)
    ensures InRange(Run(s, edges).number)
    decreases |edges|
  {
    if edges != [] {
      RunKeepsRange(OnEdge(s, edges[0].gpio, edges[0].time), edges[1..]);
    }
  }

  /** Each edge arrives more than 200 ms after the one before it, the first one after `last`. */
  predicate Spaced(last: u32, edges: seq<Edge>)
    decreases |edges|
  {
    edges == [] || (Accepts(last, edges[0].time) && Spaced(edges[0].time, edges[1..]))
  }

  /** The digit after pressing the pins `gpios` in turn, no press being debounced. */
  function Replay(n: int, gpios: seq<nat>): int
    decreases |gpios|
  {
    if gpios == [] then n else Replay(NextNumber(gpios[0], n), gpios[1..])
  }

  /** The pins of a run of edges. */
  function Pins(edges: seq<Edge>): (gpios: seq<nat>)
    ensures |gpios| == |edges|
    ensures forall i :: 0 <= i < |edges| ==> gpios[i] == edges[i].gpio
  {
    seq(|edges|, i requires 0 <= i < |edges| => edges[i].gpio)
  }

  /**
   * When edges are spaced beyond the debounce window none is lost: the digit
   * follows every press, the timestamp is that of the last edge, and a redraw
   * is pending.
   */
  lemma {:induction false} SpacedRunAcceptsAll(s: State, edges: seq<Edge>)
    requires Spaced(s.lastPress, edges)
    ensures Run(s, edges).number == Replay(s.number, Pins(edges))
    ensures edges != [] ==> Run(s, edges).lastPress == edges[|edges| - 1].time
    ensures edges != [] ==> Run(s, edges).refresh
    ensures edges == [] ==> Run(s, edges) == s
    decreases |edges|
  {
    if edges != [] {
      var s1 := OnEdge(s, edges[0].gpio, edges[0].time);
      SpacedRunAcceptsAll(s1, edges[1..]);
      assert Pins(edges)[1..] == Pins(edges[1..]);
      if |edges| > 1 {
        assert edges[1..][|edges[1..]| - 1] == edges[|edges| - 1];
      }
    }
  }

  /** Pressing up k times from n in range gives min(n + k, 9). */
  lemma {:induction false} ReplayUp(n: int, gpios: seq<nat>)
    requires InRange(n)
    requires forall i :: 0 <= i < |gpios| ==> gpios[i] == BUTTON_UP
    ensures Replay(n, gpios) == if n + |gpios| < 9 then n + |gpios| else 9
    decreases |gpios|
  {
    if gpios != [] {
      ReplayUp(NextNumber(gpios[0], n), gpios[1..]);
    }
  }

  /** Pressing down k times from n in range gives max(n - k, 0). */
  lemma {:induction false} ReplayDown(n: int, gpios: seq<nat>)
    requires InRange(n)
    requires forall i :: 0 <= i < |gpios| ==> gpios[i] == BUTTON_DOWN
    ensures Replay(n, gpios) == if n - |gpios| > 0 then n - |gpios| else 0
    decreases |gpios|
  {
    if gpios != [] {
      ReplayDown(NextNumber(gpios[0], n), gpios[1..]);
    }
  }

  /**
   * Saturation is not cancelled by later presses: from 9, up then down ends
   * at 8, not at clamp(9 + 1 - 1, 0, 9) = 9.
   */
  lemma ReplaySaturates()
    ensures Replay(9, [BUTTON_UP, BUTTON_DOWN]) == 8
  {
    assert [BUTTON_UP, BUTTON_DOWN][1..] == [BUTTON_DOWN];
    assert Replay(9, [BUTTON_UP, BUTTON_DOWN]) == Replay(9, [BUTTON_DOWN]);
    assert Replay(9, [BUTTON_DOWN]) == Replay(8, []);
  }

  /** Ten or more well-spaced up presses from boot leave the digit at 9. */
  lemma TenUpsReachNine(edges: seq<Edge>)
    requires |edges| >= 10 && Spaced(BOOT.lastPress, edges)
    requires forall i :: 0 <= i < |edges| ==> edges[i].gpio == BUTTON_UP
    ensures Run(BOOT, edges).number == 9
  {
    SpacedRunAcceptsAll(BOOT, edges);
    ReplayUp(0, Pins(edges));
  }

  /**
   * Three up presses from boot at 0 ms, 100 ms and 250 ms: the first falls in
   * the window after the initial timestamp 0 and the second within 200 ms of
   * it, so only the third counts.
   */
  lemma ThreeUpsFromBoot()
    ensures Run(BOOT, [Edge(BUTTON_UP, 0), Edge(BUTTON_UP, 100000), Edge(BUTTON_UP, 250000)])
      == State(1, 250000, true)
  {
    var edges := [Edge(BUTTON_UP, 0), Edge(BUTTON_UP, 100000), Edge(BUTTON_UP, 250000)];
    assert edges[1..] == [Edge(BUTTON_UP, 100000), Edge(BUTTON_UP, 250000)];
    assert edges[1..][1..] == [Edge(BUTTON_UP, 250000)];
    var up1 := State(1, 250000, true);
    assert OnEdge(BOOT, BUTTON_UP, 0) == BOOT;
    assert Run(BOOT, edges) == Run(BOOT, edges[1..]);
    assert OnEdge(BOOT, BUTTON_UP, 100000) == BOOT;
    assert Run(BOOT, edges[1..]) == Run(BOOT, edges[1..][1..]);
    assert OnEdge(BOOT, BUTTON_UP, 250000) == up1;
    assert Run(BOOT, edges[1..][1..]) == Run(up1, []);
  }
}
