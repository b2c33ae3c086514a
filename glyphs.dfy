/**
 * The glyph table `led_patterns` (interrupcao/interrupcao.c:30-91): for each
 * digit 0..9, 25 cells in the order they are sent to the matrix, five per row,
 * `true` where the cell is lit.
 */
module Glyphs {

  /** NUM_PIXELS: the matrix is 5 x 5. */
  const NUM_PIXELS: nat := 25

  /** A lit cell of the table. */
  const X := true
  /** An unlit cell of the table. */
  const O := false

  const LED_PATTERNS: seq<seq<bool>> := [
    [ // 0
      O, X, X, X, O,
      X, O, O, O, X,
      X, O, O, O, X,
      X, O, O, O, X,
      O, X, X, X, O
    ],
    [ // 1
      O, O, X, O, O,
      O, O, X, O, O,
      O, O, X, O, O,
      O, O, X, O, O,
      O, O, X, O, O
    ],
    [ // 2
      O, X, X, X, O,
      O, O, X, O, O,
      O, X, O, O, O,
      O, O, O, X, O,
      O, O, X, X, O
    ],
    [ // 3
      O, X, X, X, O,
      O, O, O, X, O,
      O, X, X, X, O,
      O, O, O, X, O,
      O, X, X, X, O
    ],
    [ // 4
      O, X, O, O, O,
      O, O, O, X, O,
      O, X, X, X, O,
      O, X, O, X, O,
      O, X, O, X, O
    ],
    [ // 5
      O, O, X, X, O,
      O, O, O, X, O,
      O, O, X, X, O,
      O, X, O, O, O,
      O, X, X, X, O
    ],
    [ // 6
      O, X, X, X, O,
      O, X, O, X, O,
      O, X, X, X, O,
      O, X, O, O, O,
      O, X, X, X, O
    ],
    [ // 7
      O, O, O, X, O,
      O, O, X, O, O,
      O, O, X, O, O,
      O, O, O, X, O,
      O, X, X, X, O
    ],
    [ // 8
      O, X, X, X, O,
      O, X, O, X, O,
      O, X, X, X, O,
      O, X, O, X, O,
      O, X, X, X, O
    ],
    [ // 9
      O, X, X, X, O,
      O, X, O, O, O,
      O, X, X, X, O,
      O, X, O, X, O,
      O, X, X, X, O
    ]
  ]

  /** The mask of digit `d`; the table has exactly ten rows of NUM_PIXELS cells. */
  function Pattern(d: int): (mask: seq<bool>)
    requires 0 <= d < 10
    ensures |mask| == NUM_PIXELS
  {
    LED_PATTERNS[d]
  }

  /** No two digits share a glyph, so the matrix tells every digit apart. */
  lemma PatternsDistinct(d1: int, d2: int)
    requires 0 <= d1 < 10 && 0 <= d2 < 10 && d1 != d2
    ensures Pattern(d1) != Pattern(d2)
  {
  }
}
