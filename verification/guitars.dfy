/** The `Guitar` actor of joshabout.js: falls, may be picked to glow, swells to three
    times its size, explodes into hearts; or lands and leaves a stickman. */
module Guitars {
  import opened Chance
  import opened Notes
  import Stickmen

  const BaseSize: real := 18.0
  const StartY: real := -80.0

  /** Scale gained per update while glowing, and the scale at which it explodes. */
  const GlowGrowth: real := 0.04
  const ExplodeScale: real := 3.0

  /** Scale gained and opacity lost per update while exploding. */
  const BurstGrowth: real := 0.16
  const BurstFade: real := 0.09

  /** A guitar lands this far above the bottom edge; its stickman stands at `StandOffset`. */
  const GroundMargin: real := 40.0
  const StandOffset: real := 90.0

  const HeartCount: nat := 8
  const HeartPalette: seq<string> := ["#FF3B3B", "#FFFFFF", "#E07B39"]

  datatype Kind = Acoustic | Electric

  datatype Guitar = Guitar(
    x: real,
    y: real,
    kind: Kind,
    speed: real,
    scale: real,
    glow: bool,
    exploding: bool,
    alpha: real,
    dead: bool)

  /** The `Guitar` constructor: at the top, unscaled, opaque, with a drawn speed. */
  function New(x: real, kind: Kind, speed: Unit): (g: Guitar)
    ensures g.x == x && g.y == StartY && g.kind == kind
    ensures g.scale == 1.0 && g.alpha == 1.0
    ensures !g.glow && !g.exploding && !g.dead
    ensures 0.6 <= g.speed < 1.4
  {
    Guitar(x, StartY, kind, Rand(speed, 0.6, 1.4), 1.0, false, false, 1.0, false)
  }

  /** The interaction radius used by hover. */
  function Radius(g: Guitar): (r: real)
    ensures 1.0 <= g.scale ==> BaseSize <= r
  {
    BaseSize * g.scale * 1.2
  }

  /** One heart of `createHearts`: offset up to 10 from (x, y), then the note's own jitter. */
  function HeartAt(x: real, y: real, b: BurstDraw): (n: Note)
    ensures n.isHeart && n.symbol == Heart && n.life == HeartLife && n.alpha == 1.0
    ensures n.color in HeartPalette
    ensures x - 18.0 <= n.x < x + 18.0 && y - 18.0 <= n.y < y + 18.0
  {
    Notes.New(x + Rand(b.dx, -10.0, 10.0), y + Rand(b.dy, -10.0, 10.0),
              Pick(HeartPalette, b.color), Some(Heart), true, b.note)
  }

  /** `createHearts`: eight heart notes clustered around (x, y). */
  function Hearts(x: real, y: real, d: nat -> BurstDraw): (r: seq<Note>)
    ensures |r| == HeartCount
    ensures forall n :: n in r ==>
              n.isHeart && n.symbol == Heart && n.life == HeartLife && n.alpha == 1.0
              && n.color in HeartPalette
              && x - 18.0 <= n.x < x + 18.0 && y - 18.0 <= n.y < y + 18.0
  {
    var r := seq(HeartCount, k requires 0 <= k < HeartCount => HeartAt(x, y, d(k)));
    assert forall n :: n in r ==> exists k :: 0 <= k < HeartCount && n == HeartAt(x, y, d(k));
    r
  }

  /** What one update produces: the guitar, the hearts of its explosion and the
      stickman of its landing. */
  datatype Step = Step(guitar: Guitar, hearts: seq<Note>, stickmen: seq<Stickmen.Stickman>)

  /** A guitar that has landed: below the ground line and never glowing. */
  predicate Lands(g: Guitar, height: real) {
    g.y + g.speed > height - GroundMargin && !g.dead && !g.glow && !g.exploding
  }

  /** `Guitar.update` without the drawing. `hearts` supplies the draws of the
      explosion; `clock` is the host clock the stickman falls back on. */
  function Update(g: Guitar, now: real, height: real, hearts: nat -> BurstDraw, clock: real): (r: Step)
    // every update moves it down by its speed; besides y only scale, the exploding
    // flag, alpha and dead can change
    ensures r.guitar == g.(y := g.y + g.speed, scale := r.guitar.scale, exploding := r.guitar.exploding,
                           alpha := r.guitar.alpha, dead := r.guitar.dead)
    // glowing: +0.04 a step; the step that reaches 3x also takes the first exploding step
    ensures g.glow && !g.exploding && g.scale + GlowGrowth < ExplodeScale ==>
              !r.guitar.exploding && r.guitar.scale == g.scale + GlowGrowth && r.guitar.alpha == g.alpha
    ensures g.glow && !g.exploding && g.scale + GlowGrowth >= ExplodeScale ==>
              r.guitar.exploding && r.guitar.scale == g.scale + GlowGrowth + BurstGrowth
              && r.guitar.alpha == g.alpha - BurstFade
    // exploding: +0.16 scale and -0.09 alpha a step
    ensures g.exploding ==>
              r.guitar.exploding && r.guitar.scale == g.scale + BurstGrowth && r.guitar.alpha == g.alpha - BurstFade
    // neither: no growth, no fading, no explosion
    ensures !g.glow && !g.exploding ==>
              !r.guitar.exploding && r.guitar.scale == g.scale && r.guitar.alpha == g.alpha
    ensures r.guitar.scale >= g.scale
    ensures r.guitar.exploding ==> r.guitar.glow || g.exploding
    // the explosion ends when alpha reaches 0: eight hearts at the new position
    ensures |r.hearts| == (if r.guitar.exploding && r.guitar.alpha <= 0.0 then HeartCount else 0)
    // landing: one stickman at (x, height - 90), started now
    ensures |r.stickmen| == (if Lands(g, height) then 1 else 0)
    ensures g.glow || g.exploding ==> r.stickmen == []
    ensures r.guitar.dead <==> g.dead || |r.hearts| > 0 || |r.stickmen| > 0
  {
    var y := g.y + g.speed;
    var growing := g.glow && !g.exploding;
    var grown := if growing then g.scale + GlowGrowth else g.scale;
    var exploding := g.exploding || (growing && grown >= ExplodeScale);
    var scale := if exploding then grown + BurstGrowth else grown;
    var alpha := if exploding then g.alpha - BurstFade else g.alpha;
    var burst := exploding && alpha <= 0.0;
    var dead := g.dead || burst;
    var landed := y > height - GroundMargin && !dead && !g.glow && !exploding;
    Step(
      g.(y := y, scale := scale, exploding := exploding, alpha := alpha, dead := dead || landed),
      if burst then Hearts(g.x, y, hearts) else [],
      if landed then [Stickmen.New(g.x, height - StandOffset, now, clock)] else [])
  }

  /** What an update releases: the hearts are heart notes clustered around the
      guitar's new position, and the stickman stands at (x, height - 90), alive,
      started at `now` (or at the host clock when `now` is 0). */
  lemma UpdateReleases(g: Guitar, now: real, height: real, hearts: nat -> BurstDraw, clock: real)
    ensures var r := Update(g, now, height, hearts, clock);
      && (forall n :: n in r.hearts ==>
            n.isHeart && n.symbol == Heart && n.life == HeartLife && n.alpha == 1.0
            && g.x - 18.0 <= n.x < g.x + 18.0 && g.y + g.speed - 18.0 <= n.y < g.y + g.speed + 18.0)
      && (forall s :: s in r.stickmen ==>
            s.x == g.x && s.y == height - StandOffset && !s.dead
            && (now != 0.0 ==> s.start == now) && (now == 0.0 ==> s.start == clock))
  {
  }

  /** A guitar after `k` updates with the same frame parameters and no hover. */
  function Steps(g: Guitar, k: nat, now: real, height: real, hearts: nat -> BurstDraw, clock: real): Guitar {
    if k == 0 then g else Update(Steps(g, k - 1, now, height, hearts, clock), now, height, hearts, clock).guitar
  }

  /** A guitar picked to glow at scale 1: the shape of its remaining life. For 49
      updates it only grows; the 50th reaches 3x and starts the explosion; from
      then on each update fades it by 0.09 until it dies. */
  lemma {:induction false} GlowRun(g: Guitar, k: nat, now: real, height: real, hearts: nat -> BurstDraw, clock: real)
    requires g.glow && !g.exploding && !g.dead && g.scale == 1.0 && g.alpha == 1.0
    ensures var h := Steps(g, k, now, height, hearts, clock);
      && h.glow
      && (k < 50 ==> !h.exploding && h.scale == 1.0 + GlowGrowth * k as real && h.alpha == 1.0)
      && (k >= 50 ==> h.exploding && h.scale == ExplodeScale + BurstGrowth * (k - 49) as real
                      && h.alpha == 1.0 - BurstFade * (k - 49) as real)
      && (h.dead <==> k >= 61)
  {
    if k > 0 {
      GlowRun(g, k - 1, now, height, hearts, clock);
    }
  }

  /** A guitar picked to glow at scale 1 is gone after exactly 61 updates, and the
      61st is the one that releases the eight hearts. */
  lemma GlowToDeath(g: Guitar, now: real, height: real, hearts: nat -> BurstDraw, clock: real)
    requires g.glow && !g.exploding && !g.dead && g.scale == 1.0 && g.alpha == 1.0
    ensures forall k: nat :: k < 61 ==> !Steps(g, k, now, height, hearts, clock).dead
    ensures Steps(g, 61, now, height, hearts, clock).dead
    ensures |Update(Steps(g, 60, now, height, hearts, clock), now, height, hearts, clock).hearts| == HeartCount
  {
    forall k: nat | k < 61
      ensures !Steps(g, k, now, height, hearts, clock).dead
    {
      GlowRun(g, k, now, height, hearts, clock);
    }
    GlowRun(g, 60, now, height, hearts, clock);
    GlowRun(g, 61, now, height, hearts, clock);
  }
}
