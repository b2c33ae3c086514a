/**
 * The firmware's state and entry points (interrupcao/interrupcao.c:20-28,
 * 93-131, 159-172): the globals the interrupt handler and the main loop
 * share, the handler itself, the renderer and one refresh check of the main
 * loop. The PIO transmit FIFO is the sequence of words pushed into it.
 */
module Interrupcao {
  import opened Pixel
  import opened Glyphs
  import opened Render
  import opened Input
  import opened MainLoop

  class Firmware {
    /** `current_number`: the digit on display. */
    var currentNumber: int
    /** `last_press_time`: clock value of the last accepted edge. */
    var lastPressTime: u32
    /** `refresh_display`: a redraw has been requested. */
    var refreshDisplay: bool
    /** `led_r`, `led_g`, `led_b`: the colour of lit cells. */
    var ledR: bv8
    var ledG: bv8
    var ledB: bv8
    /** Words pushed into the PIO state machine's transmit FIFO, oldest first. */
    var txFifo: seq<bv32>

    /** The digit is always one the glyph table has. */
    ghost predicate Valid()
      reads this
    {
      InRange(currentNumber)
    }

    /** The three globals shared by the handler and the main loop. */
    function Globals(): State
      reads this
    {
      State(currentNumber, lastPressTime, refreshDisplay)
    }

    /** The static initialisers, before anything has been sent. */
    constructor ()
      ensures Valid() && Globals() == BOOT
      ensures ledR == 1 && ledG == 1 && ledB == 1
      ensures txFifo == []
    {
      currentNumber, lastPressTime, refreshDisplay := 0, 0, false;
      ledR, ledG, ledB := 1, 1, 1;
      txFifo := [];
    }

    /** `put_pixel`: push one word, the packed colour shifted left by 8. */
    method PutPixel(pixelGrb: bv32)
      modifies this`txFifo
      ensures txFifo == old(txFifo) + [PioWord(pixelGrb)]
    {
      txFifo := txFifo + [pixelGrb << 8];
    }

    /** `update_led_matrix`: send the current digit's 25 cells in index order. */
    method UpdateLedMatrix(r: bv8, g: bv8, b: bv8)
      requires Valid()
      modifies this`txFifo
      ensures txFifo == old(txFifo) + DigitFrame(currentNumber, r, g, b)
    {
      var color := ConvertRgb(r, g, b);
      for i := 0 to NUM_PIXELS
        invariant txFifo == old(txFifo) + Frame(Pattern(currentNumber)[..i], color)
      {
        ghost var mask := Pattern(currentNumber);
        assert mask[..i + 1][..i] == mask[..i];
        if LED_PATTERNS[currentNumber][i] {
          PutPixel(color);
        } else {
          PutPixel(0);
        }
      }
      assert Pattern(currentNumber)[..NUM_PIXELS] == Pattern(currentNumber);
    }

    /**
     * `gpio_irq_handler` for pin `gpio`, with `currentTime` the clock value it
     * reads: the globals move exactly as the step function OnEdge says.
     */
    method GpioIrqHandler(gpio: nat, currentTime: u32)
      requires Valid()
      modifies this`currentNumber, this`lastPressTime, this`refreshDisplay
      ensures Valid()
      ensures Globals() == OnEdge(old(Globals()), gpio, currentTime)
    {
      if ((currentTime as int - lastPressTime as int) % TWO_TO_32) > TEMPO_DEBOUNCE {
        lastPressTime := currentTime;
        if gpio == BUTTON_UP && currentNumber < 9 {
          currentNumber := currentNumber + 1;
        } else if gpio == BUTTON_DOWN && currentNumber > 0 {
          currentNumber := currentNumber - 1;
        }
        refreshDisplay := true;
      }
    }

    /**
     * The refresh check of one main-loop iteration: render and clear the flag
     * if it was set, as RefreshStep says.
     */
    method MainLoopStep()
      requires Valid()
      modifies this`txFifo, this`refreshDisplay
      ensures Valid()
      ensures Globals() == RefreshStep(old(Globals()), ledR, ledG, ledB).0
      ensures txFifo == old(txFifo) + RefreshStep(old(Globals()), ledR, ledG, ledB).1
    {
      if refreshDisplay {
        UpdateLedMatrix(ledR, ledG, ledB);
        refreshDisplay := false;
      }
    }
  }

  /**
   * Power-on, the first render `main` does before its loop, an up press 300 ms
   * after boot and the next refresh check: the FIFO holds the frame of 0 and
   * then the frame of 1, in the colour (1,1,1).
   */
  method PowerOnThenPressUp() returns (words: seq<bv32>)
    ensures words == DigitFrame(0, 1, 1, 1) + DigitFrame(1, 1, 1, 1)
  {
    var fw := new Firmware();
    fw.UpdateLedMatrix(fw.ledR, fw.ledG, fw.ledB);
    fw.GpioIrqHandler(BUTTON_UP, 300000);
    fw.MainLoopStep();
    words := fw.txFifo;
  }
}
