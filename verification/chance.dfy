/** Randomness of the animation, passed in as values.

    Every call of `Math.random()` in joshabout.js becomes a `Unit`: a real in [0, 1).
    Each site that consumes random numbers takes a record holding the draws it
    uses, so the model is deterministic in its arguments.
 */
module Chance {

  /** A value `Math.random()` may return. */
  type Unit = u: real | 0.0 <= u < 1.0 witness 0.0

  /** A draw scales a nonnegative span to a part of it, the whole span excluded. */
  lemma StretchBounds(u: Unit, span: real)
    requires 0.0 <= span
    ensures 0.0 <= u * span <= span
    ensures 0.0 < span ==> u * span < span
  {
    assert (1.0 - u) * span == span - u * span;
    assert 0.0 <= (1.0 - u) * span;
    assert 0.0 < span ==> 0.0 < (1.0 - u) * span;
  }

  /** `rand(min, max)`: the draw `u` stretched onto [lo, hi). */
  function Rand(u: Unit, lo: real, hi: real): (r: real)
    ensures lo <= hi ==> lo <= r <= hi
    ensures lo < hi ==> r < hi
  {
    var span := hi - lo;
    if 0.0 <= span then StretchBounds(u, span); u * span + lo
    else u * span + lo
  }

  /** `Math.floor(Math.random() * n)`: a uniformly drawn index below `n`. */
  function PickIndex(u: Unit, n: nat): (i: nat)
    requires 0 < n
    ensures i < n
    ensures i as real <= u * n as real < i as real + 1.0
  {
    StretchBounds(u, n as real);
    (u * n as real).Floor
  }

  /** `colors[Math.floor(Math.random() * colors.length)]`. */
  function Pick(palette: seq<string>, u: Unit): (c: string)
    requires 0 < |palette|
    ensures c in palette
  {
    palette[PickIndex(u, |palette|)]
  }

  /** The draws the `Note` constructor makes: position jitter, default glyph,
      size, rising speed and wiggle phase (not every kind of note uses all). */
  datatype NoteDraws = NoteDraws(jitterX: Unit, jitterY: Unit, glyph: Unit, size: Unit, speed: Unit, phase: Unit)

  /** The draws for one note of a burst (a heart of an explosion or a note of a
      pop): the offset from the guitar, the palette pick and the note's own draws. */
  datatype BurstDraw = BurstDraw(dx: Unit, dy: Unit, color: Unit, note: NoteDraws)

  /** The draws a strumming stickman makes in one update: the emission coin,
      then (when it emits) the palette pick and the note's own draws. */
  datatype StrumDraw = StrumDraw(coin: Unit, color: Unit, note: NoteDraws)

  /** The draws of `spawnGuitar`: the type coin, the x position and the speed. */
  datatype SpawnDraw = SpawnDraw(kind: Unit, x: Unit, speed: Unit)

  /** All draws one animation frame may make. `hearts(i)(k)` is for the k-th
      heart of the guitar at index i; `strums(i)` for the stickman at index i. */
  datatype FrameDraws = FrameDraws(
    spawn: SpawnDraw,
    glowPick: Unit,
    hearts: nat -> nat -> BurstDraw,
    strums: nat -> StrumDraw)
}
