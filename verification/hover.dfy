/** `handleHover` of joshabout.js: the pointer pops plain guitars into music notes and
    sets glowing ones off at once. */
module Hover {
  import opened Chance
  import opened Notes
  import opened Guitars
  import Sweep

  const PopSize: nat := 3
  const PopPalette: seq<string> := ["#ffffff", "#FFA500", "#1E90FF"]

  /** `Math.hypot(dx, dy) < r`, compared on squares so that no square root is needed. */
  predicate Within(dx: real, dy: real, r: real) {
    0.0 < r && dx * dx + dy * dy < r * r
  }

  /** Squaring is strictly increasing on nonnegative reals. */
  lemma SquareLess(a: real, b: real)
    requires 0.0 <= a < b
    ensures a * a < b * b
  {
    calc {
      a * a;
    <= { assert a * (b - a) >= 0.0; }
      a * b;
    < { assert b * (b - a) > 0.0; }
      b * b;
    }
  }

  /** The comparison on squares agrees with comparing the distance itself: for the
      nonnegative `h` with h^2 = dx^2 + dy^2, `h < r` exactly when `Within` holds. */
  lemma WithinIsDistance(dx: real, dy: real, r: real, h: real)
    requires 0.0 <= h && h * h == dx * dx + dy * dy
    ensures Within(dx, dy, r) <==> h < r
  {
    if h < r {
      SquareLess(h, r);
    } else if r < h && 0.0 < r {
      SquareLess(r, h);
    }
  }

  /** The guitars the pointer at (mx, my) touches: alive and inside the radius. */
  predicate Hit(g: Guitar, mx: real, my: real) {
    !g.dead && Within(mx - g.x, my - g.y, Radius(g))
  }

  /** A touched guitar that is neither glowing nor exploding is popped. */
  predicate Pops(g: Guitar, mx: real, my: real) {
    Hit(g, mx, my) && !g.glow && !g.exploding
  }

  /** One note of a pop: offset up to 6 from the guitar, then the note's own jitter. */
  function PopNote(g: Guitar, b: BurstDraw): (n: Note)
    ensures !n.isHeart && n.life == MusicLife && n.alpha == 1.0 && n.color in PopPalette
    ensures n.symbol == MusicNote || n.symbol == BeamedNotes
    ensures g.x - 14.0 <= n.x < g.x + 14.0 && g.y - 14.0 <= n.y < g.y + 14.0
  {
    Notes.New(g.x + Rand(b.dx, -6.0, 6.0), g.y + Rand(b.dy, -6.0, 6.0),
              Pick(PopPalette, b.color), None, false, b.note)
  }

  datatype Touched = Touched(guitar: Guitar, notes: seq<Note>)

  /** The body of the hover loop for one guitar. */
  function Touch(g: Guitar, mx: real, my: real, d: nat -> BurstDraw): Touched {
    if !Hit(g, mx, my) then Touched(g, [])
    else if !g.glow && !g.exploding then
      Touched(g.(dead := true), [PopNote(g, d(0)), PopNote(g, d(1)), PopNote(g, d(2))])
    else if g.glow && !g.exploding then Touched(g.(exploding := true), [])
    else Touched(g, [])
  }

  /** The number of guitars the pointer at (mx, my) pops. */
  function Popped(gs: seq<Guitar>, mx: real, my: real): (n: nat)
    ensures n <= |gs|
  {
    if |gs| == 0 then 0
    else Popped(gs[..|gs| - 1], mx, my) + (if Pops(gs[|gs| - 1], mx, my) then 1 else 0)
  }

  datatype Hovered = Hovered(guitars: seq<Guitar>, notes: seq<Note>)

  /** `handleHover(mx, my)`: walks the guitars from the last index down. `pops(i)`
      supplies the draws for the notes of the guitar at index i. */
  function HandleHover(gs: seq<Guitar>, mx: real, my: real, pops: nat -> nat -> BurstDraw): (r: Hovered)
    ensures |r.guitars| == |gs|
    // dead guitars and guitars out of reach are untouched
    ensures forall i :: 0 <= i < |gs| && !Hit(gs[i], mx, my) ==> r.guitars[i] == gs[i]
    // a plain guitar in reach dies
    ensures forall i :: 0 <= i < |gs| && Pops(gs[i], mx, my) ==> r.guitars[i] == gs[i].(dead := true)
    // a glowing guitar in reach starts exploding
    ensures forall i :: 0 <= i < |gs| && Hit(gs[i], mx, my) && gs[i].glow && !gs[i].exploding ==>
              r.guitars[i] == gs[i].(exploding := true)
    // an exploding guitar is left alone
    ensures forall i :: 0 <= i < |gs| && gs[i].exploding ==> r.guitars[i] == gs[i]
    // three music notes per popped guitar, and nothing else
    ensures |r.notes| == PopSize * Popped(gs, mx, my)
    ensures forall n :: n in r.notes ==> !n.isHeart && n.life == MusicLife && n.color in PopPalette
  {
    if |gs| == 0 then Hovered([], [])
    else
      var i := |gs| - 1;
      var t := Touch(gs[i], mx, my, pops(i));
      var rest := HandleHover(gs[..i], mx, my, pops);
      Sweep.MulSucc(PopSize, Popped(gs[..i], mx, my));
      Hovered(rest.guitars + [t.guitar], t.notes + rest.notes)
  }

  /** A pointer at the very centre of a plain guitar pops it into three notes. */
  lemma PopAtCentre(g: Guitar, pops: nat -> nat -> BurstDraw)
    requires !g.dead && !g.glow && !g.exploding && 1.0 <= g.scale
    ensures HandleHover([g], g.x, g.y, pops).guitars == [g.(dead := true)]
    ensures |HandleHover([g], g.x, g.y, pops).notes| == PopSize
  {
    assert Pops(g, g.x, g.y);
    assert [g][..0] == [];
  }
}
