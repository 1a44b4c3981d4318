/** The `Note` actor of joshabout.js: a music note or heart that floats up and fades. */
module Notes {
  import opened Chance

  datatype Option<T> = None | Some(value: T)

  const MusicNote: char := '♪'
  const BeamedNotes: char := '♫'
  const Heart: char := '❤'

  /** Updates a note lives for, by kind. */
  const HeartLife: int := 180
  const MusicLife: int := 120

  /** Opacity lost per update, by kind. */
  const HeartFade: real := 0.005
  const MusicFade: real := 0.008

  /** The double `Math.PI`, written out. */
  const Pi: real := 3.141592653589793

  datatype Note = Note(
    x: real,
    y: real,
    color: string,
    symbol: char,
    alpha: real,
    size: real,
    speed: real,
    offset: real,
    life: int,
    isHeart: bool)

  function Fade(n: Note): real {
    if n.isHeart then HeartFade else MusicFade
  }

  /** `isDead`: out of life or fully transparent. */
  predicate IsDead(n: Note) {
    n.life <= 0 || n.alpha <= 0.0
  }

  /** The `Note` constructor. A missing symbol is drawn between the two music glyphs;
      hearts are bigger and rise at a fixed slow speed. */
  function New(x: real, y: real, color: string, symbol: Option<char>, isHeart: bool, d: NoteDraws): (n: Note)
    ensures n.alpha == 1.0 && n.isHeart == isHeart && n.color == color
    ensures n.life == if isHeart then HeartLife else MusicLife
    ensures !IsDead(n)
    ensures x - 8.0 <= n.x < x + 8.0 && y - 8.0 <= n.y < y + 8.0
    ensures symbol.Some? ==> n.symbol == symbol.value
    ensures symbol.None? ==> n.symbol == MusicNote || n.symbol == BeamedNotes
    ensures isHeart ==> n.speed == 0.5 && 22.0 <= n.size < 30.0
    ensures !isHeart ==> 1.0 <= n.speed < 2.2 && 14.0 <= n.size < 22.0
  {
    Note(
      x := x + Rand(d.jitterX, -8.0, 8.0),
      y := y + Rand(d.jitterY, -8.0, 8.0),
      color := color,
      symbol := if symbol.Some? then symbol.value else if d.glyph > 0.4 then MusicNote else BeamedNotes,
      alpha := 1.0,
      size := (if isHeart then 22.0 else 14.0) + Rand(d.size, 0.0, 8.0),
      speed := if isHeart then 0.5 else Rand(d.speed, 1.0, 2.2),
      offset := Rand(d.phase, 0.0, 2.0 * Pi),
      life := if isHeart then HeartLife else MusicLife,
      isHeart := isHeart)
  }

  /** `Note.update` without the drawing: rise by `speed`, wiggle sideways by the
      host's sine of the remaining life and phase, fade, and lose one unit of life. */
  function Update(n: Note, sin: real -> real): (r: Note)
    ensures r.life == n.life - 1
    ensures r.alpha == n.alpha - Fade(n) < n.alpha
    ensures r.y == n.y - n.speed
    ensures r == n.(x := r.x, y := r.y, alpha := r.alpha, life := r.life)
    ensures IsDead(n) ==> IsDead(r)
  {
    n.(
      y := n.y - n.speed,
      x := n.x + sin(n.life as real / 10.0 + n.offset) * (if n.isHeart then 0.9 else 0.6),
      alpha := n.alpha - Fade(n),
      life := n.life - 1)
  }

  /** A note after `k` updates. */
  function Steps(n: Note, k: nat, sin: real -> real): Note {
    if k == 0 then n else Update(Steps(n, k - 1, sin), sin)
  }

  /** Life and opacity after `k` updates, in closed form. */
  lemma {:induction false} StepsClosedForm(n: Note, k: nat, sin: real -> real)
    ensures Steps(n, k, sin).isHeart == n.isHeart
    ensures Steps(n, k, sin).life == n.life - k
    ensures Steps(n, k, sin).alpha == n.alpha - k as real * Fade(n)
  {
    if k > 0 {
      StepsClosedForm(n, k - 1, sin);
    }
  }

  /** A fresh note dies on exactly its `life`-th update: 180 for a heart, 120 for a
      music note. Opacity is still positive then, so the life counter decides. */
  lemma Lifetime(x: real, y: real, color: string, symbol: Option<char>, isHeart: bool, d: NoteDraws, k: nat, sin: real -> real)
    ensures IsDead(Steps(New(x, y, color, symbol, isHeart, d), k, sin)) <==> k >= (if isHeart then 180 else 120)
    ensures 0.0 < Steps(New(x, y, color, symbol, isHeart, d), if isHeart then 180 else 120, sin).alpha
  {
    var n := New(x, y, color, symbol, isHeart, d);
    StepsClosedForm(n, k, sin);
    StepsClosedForm(n, if isHeart then 180 else 120, sin);
  }
}
