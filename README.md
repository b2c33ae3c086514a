# Interrupção: a debounced digit on a 5×5 LED matrix

This project models the core of the Raspberry Pi Pico firmware
`interrupcao/interrupcao.c`. The firmware shows one digit (0–9) on a 5×5
chain of addressable LEDs. Two buttons raise and lower the digit, and a
status LED blinks. The model covers four pieces:

- **Colour packing** (module `Pixel`). `convert_rgb` packs green into bits
  16–23, red into 8–15 and blue into 0–7. `put_pixel` pushes that value
  shifted left by 8 into the PIO transmit FIFO. Both are bit-vector
  functions, proved to decode back to their channels.
- **Glyph table and renderer** (modules `Glyphs` and `Render`).
  `led_patterns` becomes a constant table. `Frame` specifies what
  `update_led_matrix` sends: one word per cell in increasing index, the
  colour's word where the glyph is lit and 0 elsewhere.
- **Button interrupt handler** (module `Input`). The handler is a step
  function `OnEdge` on the three shared globals: `current_number`,
  `last_press_time` and `refresh_display`. It applies the 200 ms debounce
  test on `uint32_t` arithmetic, which wraps modulo 2^32. The up button is
  a saturating increment and the down button a saturating decrement.
  Lemmas cover single edges and whole runs of edges.
- **Refresh check of the main loop** (module `MainLoop`). If a redraw is
  pending, render the current digit and clear the flag.

The class `Interrupcao.Firmware` holds the globals and the FIFO.
`PutPixel`, `UpdateLedMatrix` (a `for` loop over the 25 cells),
`GpioIrqHandler` and `MainLoopStep` update that state in place. Each
method is proved against the pure function that specifies it.

The handler's clock reading is a parameter: the microsecond clock
truncated to `uint32_t`. The handler's pin argument is an unbounded
natural number that is compared with the two button pins.

Two consequences of the code are worth stating plainly:

- `last_press_time` starts at 0, and an edge is accepted only when more
  than 200000 µs have passed since it. So any edge at t ≤ 200000 µs after
  boot is ignored, including one at t = 0 (`Input.EarlyEdgesIgnored`,
  `Input.ThreeUpsFromBoot`).
- A mixed run of presses is not `clamp(n + ups − downs, 0, 9)` once a
  press saturates: from 9, up then down ends at 8
  (`Input.ReplaySaturates`). The model states a run as a fold of
  saturating steps (`Input.Replay`). `Input.ReplayUp` and
  `Input.ReplayDown` give the closed form for presses that all go the
  same way.

## Model

| member | source | states |
|---|---|---|
| `Pixel.ConvertRgb` | interrupcao/interrupcao.c:99-101 | the packed colour is below 2^24, and its green, red and blue bytes decode back to g, r and b |
| `Pixel.UnpackPack` | interrupcao/interrupcao.c:99-101 | every value below 2^24 is the packing of its own three decoded channels |
| `Pixel.ConvertRgbInjective` | interrupcao/interrupcao.c:99-101 | two colours that pack to the same value are the same colour |
| `Pixel.PioWord` | interrupcao/interrupcao.c:94-96 | the word `put_pixel` sends has a zero low byte |
| `Pixel.PioWordKeepsColour` | interrupcao/interrupcao.c:94-96 | the word's top 24 bits are the low 24 bits of the value passed in, so a top byte is lost by the 32-bit shift |
| `Pixel.PioWordRoundTrip` | interrupcao/interrupcao.c:94-101 | a packed colour comes back unchanged from the word shifted right by 8 |
| `Pixel.PioWordZero` | interrupcao/interrupcao.c:94-96 | a colour's word is 0, the same word as `put_pixel(0)`, exactly when all three channels are 0 |
| `Glyphs.Pattern` | interrupcao/interrupcao.c:31-91 | the table has a 25-cell mask for each digit 0..9 |
| `Glyphs.PatternsDistinct` | interrupcao/interrupcao.c:31-91 | no two digits have the same mask |
| `Render.Frame` | interrupcao/interrupcao.c:107-113 | the words for a mask are one per cell in index order: the colour's word at lit cells and 0 at unlit cells |
| `Render.DigitFrame` | interrupcao/interrupcao.c:104-114 | the frame of a digit has exactly 25 words |
| `Render.FrameDecodes` | interrupcao/interrupcao.c:107-113 | each frame word has a zero low byte; a lit cell's word shifted right by 8 is the packed colour, which decodes to (g, r, b); an unlit cell's word is 0 |
| `Render.DigitFrameInjective` | interrupcao/interrupcao.c:104-114 | for any colour other than (0,0,0), different digits give different frames |
| `Render.DefaultColour` | interrupcao/interrupcao.c:26-28 | the default colour (1,1,1) packs to 0x010101, sent as 0x01010100 |
| `Render.FrameOfFive` | interrupcao/interrupcao.c:62-66 | digit 5 in (1,1,1) gives 0x01010100 at the glyph's lit cells and 0 at the others |
| `Input.Elapsed` | interrupcao/interrupcao.c:120 | the elapsed time is `now − last` when `now ≥ last`, and `now − last + 2^32` when the clock has wrapped |
| `Input.NextNumber` | interrupcao/interrupcao.c:123-127 | up gives min(n+1, 9), down gives max(n−1, 0), any other pin leaves n, and 0..9 is preserved |
| `Input.OnEdge` | interrupcao/interrupcao.c:117-131 | a debounced edge leaves all three globals unchanged; an accepted edge sets the timestamp to `now`, sets the refresh flag and applies NextNumber |
| `Input.RejectedWindow` | interrupcao/interrupcao.c:120 | an edge is rejected exactly when it arrives no more than 200000 µs after the last accepted edge, counting modulo 2^32 |
| `Input.EarlyEdgesIgnored` | interrupcao/interrupcao.c:21-23 | from the initial globals, an edge at `now ≤ 200000` on any pin changes nothing |
| `Input.SharedDebounce` | interrupcao/interrupcao.c:120-121 | after an accepted edge on either pin, an edge on either pin within 200000 µs, counting modulo 2^32 (so also across a clock wrap), changes nothing |
| `Input.SharedDebounceAcrossWrap` | interrupcao/interrupcao.c:120-121 | an up press at 0xFFFFFFF0 µs followed by a down press at 100 µs after the clock wraps: the second edge is rejected |
| `Input.PressAtBound` | interrupcao/interrupcao.c:123-129 | up at 9 or down at 0, when accepted, keeps the digit but records the time and sets the refresh flag |
| `Input.RunKeepsRange` | interrupcao/interrupcao.c:21 | after any run of edges at any times, the digit is still within 0..9 |
| `Input.SpacedRunAcceptsAll` | interrupcao/interrupcao.c:120-130 | with edges spaced more than 200 ms apart, every press is applied in order, the timestamp is the last edge's, and a redraw is pending |
| `Input.ReplayUp` | interrupcao/interrupcao.c:123-124 | k up presses from n give min(n+k, 9) |
| `Input.ReplayDown` | interrupcao/interrupcao.c:125-126 | k down presses from n give max(n−k, 0) |
| `Input.ReplaySaturates` | interrupcao/interrupcao.c:123-126 | from 9, up then down gives 8: saturation is not undone by later presses |
| `Input.TenUpsReachNine` | interrupcao/interrupcao.c:123-124 | ten or more well-spaced up presses from boot leave the digit at 9 |
| `Input.ThreeUpsFromBoot` | interrupcao/interrupcao.c:117-131 | up presses at 0, 100000 and 250000 µs after boot leave digit 1, timestamp 250000 and a redraw pending |
| `MainLoop.RefreshStep` | interrupcao/interrupcao.c:169-172 | the check always leaves the flag clear and the digit and timestamp unchanged; it sends 25 words if the flag was set and none otherwise |
| `MainLoop.IdleStep` | interrupcao/interrupcao.c:169 | with no pending request, the check changes nothing and sends nothing |
| `MainLoop.RefreshStepIdempotent` | interrupcao/interrupcao.c:169-172 | a second check straight after the first sends nothing |
| `MainLoop.AcceptedEdgeIsDrawn` | interrupcao/interrupcao.c:129 | after an accepted edge, the next check sends the frame of the digit that edge produced |
| `MainLoop.RejectedEdgeIsNotDrawn` | interrupcao/interrupcao.c:120 | a debounced edge on an idle display causes no redraw |
| `Interrupcao.Firmware.constructor` | interrupcao/interrupcao.c:21-28 | the initial globals are digit 0, timestamp 0 and no request; the colour is (1,1,1); the FIFO is empty |
| `Interrupcao.Firmware.PutPixel` | interrupcao/interrupcao.c:94-96 | exactly one word, the argument shifted left by 8, is appended to the FIFO |
| `Interrupcao.Firmware.UpdateLedMatrix` | interrupcao/interrupcao.c:104-114 | the loop appends exactly the current digit's frame to the FIFO and changes nothing else |
| `Interrupcao.Firmware.GpioIrqHandler` | interrupcao/interrupcao.c:117-131 | the globals change exactly as OnEdge says, and the digit stays within 0..9 |
| `Interrupcao.Firmware.MainLoopStep` | interrupcao/interrupcao.c:169-172 | the flag and the FIFO change exactly as RefreshStep says |
| `Interrupcao.PowerOnThenPressUp` | interrupcao/interrupcao.c:159-172 | power-on, the first render, an up press at 300 ms and one refresh check leave the frame of 0 and then the frame of 1 in the FIFO |

## Left out

- PIO program loading and state-machine setup (`pio_add_program`, `interrupcao_program_init`, lines 138-141) are hardware SDK calls. The transmit FIFO is modelled as the sequence of words pushed into it. The PIO program that shifts the bits out is not part of this model.
- GPIO direction, pull-ups and interrupt registration (lines 144-157) and `stdio_init_all` (line 135) are board bring-up only.
- The clock read `to_us_since_boot(get_absolute_time())` (line 118) is a foreign call. Its value, truncated to 32 bits, is a parameter of `GpioIrqHandler`.
- The `events` argument of `gpio_irq_handler` is never read by the source, so the model omits it.
- The status-LED toggling and the `sleep_ms` calls (lines 164-167) are timing and I/O with no logical content. The endless `while (true)` is modelled one iteration at a time (`MainLoopStep`).
- Interrupt preemption and `volatile` accesses are not modelled. Handler calls and refresh checks are atomic method calls that interleave. In particular, the model does not capture an edge landing mid-render: the C loop re-reads `current_number` for every cell, so such an edge could mix two glyphs in one frame. Nor does it capture a lost redraw request: an edge accepted during `update_led_matrix`, or between it and `refresh_display = false` (lines 129 and 170-171), has its request cleared by the main loop, so the mixed or stale frame stays on the matrix until the next accepted edge.
- `int current_number` is an unbounded integer in the model. It never leaves 0..9, so a 32-bit `int` cannot overflow.
