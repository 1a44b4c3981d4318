# Falling guitars: a Dafny model of the about-page animation

The about page runs a background animation in `joshabout.js` built from three kinds of actor:

- **Guitars** fall from the top of the canvas. Every 5 seconds one of them may be picked to glow. A glowing guitar swells to three times its size, explodes and fades into eight hearts. A guitar that reaches the ground instead leaves a stickman there. A plain guitar touched by the pointer pops into three music notes.
- **Notes** (music notes and hearts) float upwards and fade out.
- **Stickmen** strum for three seconds and now and then release a music note.

Each frame spawns a guitar every 2 seconds, runs the glow pick, and then updates the three actor arrays. Each array is walked from its last index down, and an actor whose update left it dead is spliced out.

This project models that simulation without the drawing. Every actor is an immutable datatype, and every update is a pure function. The frame is modelled twice:
- `Animation.Frame` is a functional reference. Each array becomes the order-preserving filter `Sweep.Survivors` of its updated entries, plus what the updates released.
- `Animation.Animate` is the frame as the source writes it, with the three reverse splice loops. It is proved to compute exactly `Frame`.

Arithmetic is exact (`real`), so the tick counts below are facts about the exact model. The source computes in IEEE doubles. There the rounding errors do not move the thresholds for a guitar glowing from scale 1, or for a fresh note, so doubles give the same tick counts. That double arithmetic lies outside the model and is not proved here.

Modules, in dependency order:

- `chance.dfy`, module `Chance`:
  - `Math.random()` as a value of the subset type `Unit`, which is [0, 1).
  - `rand(min, max)` and the palette pick.
  - The draw records through which each random-consuming site receives its draws.
- `notes.dfy`, module `Notes`: the `Note` constructor, `update` and `isDead`.
- `stickmen.dfy`, module `Stickmen`: the `Stickman` constructor and `update`.
- `guitars.dfy`, module `Guitars`: the `Guitar` constructor, `radius`, `createHearts` and `update`.
- `sweep.dfy`, module `Sweep`: the generic shapes of the frame loop. That is, the order-preserving filter, the order in which a reverse loop pushes what its entries release, and the reverse splice loop itself.
- `hover.dfy`, module `Hover`: `handleHover`.
- `animation.dfy`, module `Animation`:
  - the scene;
  - `spawnGuitar`, the spawn and glow-pick timers, and `animate`;
  - the scene invariant and scenarios.

## Model

| member | source | states |
|---|---|---|
| Chance.Rand | joshabout.js:25 | `rand(lo, hi)` lies in [lo, hi], and strictly below hi when lo < hi |
| Chance.PickIndex | joshabout.js:309 | `Math.floor(u * n)` is an index below n, the one whose unit interval holds u * n |
| Chance.Pick | joshabout.js:228-229 | a palette pick is one of the palette's colours |
| Notes.New | joshabout.js:137-148 | a new note is opaque and alive, with a life of 180 for a heart and 120 otherwise; it lies within 8 of the requested point; a given symbol is kept, and a missing one becomes one of the two music glyphs; hearts have speed 0.5 and size in [22, 30), while music notes have speed in [1, 2.2) and size in [14, 22) |
| Notes.Update | joshabout.js:149-154 | one update costs one unit of life and 0.005 (heart) or 0.008 (music) of opacity, and raises the note by its speed; nothing but x, y, alpha and life changes; a dead note stays dead |
| Notes.StepsClosedForm | joshabout.js:149-154 | after k updates, life has dropped by k and alpha by k times the kind's fade |
| Notes.Lifetime | joshabout.js:163-165 | `isDead` (life at most 0 or alpha at most 0) holds after k updates of a fresh note exactly when k is at least 180 for a heart or 120 for a music note; opacity is still positive at that point |
| Stickmen.New | joshabout.js:170-176 | a new stickman is alive where it was put; it starts at the given time, or at the host clock when that time is 0 |
| Stickmen.Update | joshabout.js:177-230 | the update marks the stickman dead exactly when more than 3000 ms have passed since its start, and then releases nothing; otherwise it releases one note exactly when the coin is below 0.08; the note is a non-heart music note in the strum palette, near the strumming hand; position and start never change |
| Stickmen.Lifetime | joshabout.js:173-179 | a stickman started at a nonzero time survives an update exactly when it comes at most 3000 ms after the start |
| Stickmen.RunLifetime | joshabout.js:177-230 | over any sequence of updates, a live stickman keeps its place; it dies exactly when some update comes more than 3000 ms after its start; it releases at most one music note per update |
| Guitars.New | joshabout.js:29-43 | a new guitar is at y = -80 with scale 1 and alpha 1, no flags set, and speed in [0.6, 1.4) |
| Guitars.Radius | joshabout.js:46-48 | the interaction radius is at least the base size 18 once scale is at least 1 |
| Guitars.HeartAt | joshabout.js:246-247 | a heart of an explosion is an opaque heart note with life 180 in the heart palette, within 18 of the explosion point |
| Guitars.Hearts | joshabout.js:243-249 | `createHearts` makes exactly eight such hearts |
| Guitars.Update | joshabout.js:101-128 | every update moves the guitar down by its speed. A glowing guitar grows by 0.04; the update that reaches scale 3 also sets `exploding` and applies the exploding step (+0.16 scale, -0.09 alpha). Scale never decreases, and exploding implies glowing unless it already exploded. Exactly eight hearts are released when the update leaves the guitar exploding with alpha at most 0. Exactly one stickman is released when the guitar lands (alive, not glowing, not exploding, below height - 40), and never for a glowing or exploding one. The guitar is dead afterwards exactly when it was dead already or released something |
| Guitars.UpdateReleases | joshabout.js:117-127 | the released hearts are heart notes of life 180 around the guitar's new position; the released stickman stands alive at (x, height - 90) and starts at `now`, or at the host clock when `now` is 0 |
| Guitars.GlowRun | joshabout.js:105-121 | a guitar glowing from scale 1: for 49 updates it only grows; from the 50th on, it explodes with scale 3 + 0.16(k - 49) and alpha 1 - 0.09(k - 49); it is dead exactly from the 61st update on |
| Guitars.GlowToDeath | joshabout.js:105-121 | a guitar glowing from scale 1 is alive for 60 updates and dead after 61, and the 61st update releases the eight hearts |
| Hover.WithinIsDistance | joshabout.js:258 | comparing squared distances agrees with `Math.hypot(dx, dy) < r` |
| Hover.PopNote | joshabout.js:261-264 | a pop note is an opaque non-heart music note of life 120 in the pop palette, within 14 of the guitar |
| Hover.HandleHover | joshabout.js:252-273 | guitars that are dead or out of reach are untouched; a plain guitar in reach is marked dead; a glowing one in reach starts exploding; an exploding one is left alone; the array keeps its length; exactly three non-heart notes of life 120 are pushed per popped guitar |
| Hover.PopAtCentre | joshabout.js:255-265 | a pointer at the centre of a plain live guitar pops it into three notes |
| Animation.SpawnGuitar | joshabout.js:237-241 | a spawned guitar is fresh; its type follows the coin (acoustic above 0.5); its x keeps 40 from both edges when the canvas is at least 80 wide |
| Animation.Spawn | joshabout.js:296-300 | a guitar is appended, and the spawn timer set to `time`, exactly when more than 2000 ms have passed; nothing else changes |
| Animation.Candidates | joshabout.js:307 | the candidates are exactly the indices of guitars that are alive, not glowing and not exploding, in increasing order |
| Animation.GlowPick | joshabout.js:302-314 | the glow timer resets exactly when more than 5000 ms have passed, with or without candidates; at most one guitar changes, and it was eligible and only gains `glow`; when the timer fires and some guitar is eligible, one does change |
| Animation.Settle | joshabout.js:316-334 | the update-and-sweep part of a frame never lengthens the guitar array and leaves the timers alone |
| Animation.Frame | joshabout.js:289-337 | a frame sets each timer exactly when it fires, and adds at most one guitar |
| Animation.ReleasedAlive | joshabout.js:226-230 | every note a stickman releases is alive |
| Animation.SettleAlive | joshabout.js:316-334 | after the sweeps no guitar, stickman or note in the scene is dead |
| Animation.FrameAlive | joshabout.js:289-337 | after a frame no guitar, stickman or note in the scene is dead |
| Animation.HeartsReleased | joshabout.js:317-321 | the guitar pass pushes exactly eight hearts per guitar that burst in it |
| Animation.StickmenReleased | joshabout.js:317-321 | the guitar pass pushes exactly one stickman per guitar that landed in it |
| Animation.SweepGuitars | joshabout.js:317-321 | the reverse guitar loop leaves exactly the updated guitars that are not dead, in order, and appends what they released in the order the loop pushes it |
| Animation.SweepNotes | joshabout.js:324-327 | the reverse note loop leaves exactly the updated notes that are not dead, in order |
| Animation.SweepStickmen | joshabout.js:330-334 | the reverse stickman loop leaves exactly the updated stickmen that are not dead, in order, and appends the notes they released |
| Animation.Animate | joshabout.js:289-337 | `animate` as written computes exactly the reference frame |
| Animation.PointerMove | joshabout.js:277-283 | a pointer move changes guitars in place, appends three notes per popped guitar, and touches nothing else |
| Animation.InitialInv | joshabout.js:13-22 | the empty starting scene satisfies the scene invariant |
| Animation.UpdateKeepsSound | joshabout.js:101-128 | the invariant holds for a sound guitar after an update it survives: exploding only while glowing, dead only while neither, scale at least 1, alpha positive |
| Animation.SpawnKeepsInv | joshabout.js:237-241 | spawning keeps the scene invariant |
| Animation.GlowPickKeepsInv | joshabout.js:302-314 | the glow pick keeps the scene invariant |
| Animation.SettleKeepsInv | joshabout.js:316-321 | the sweeps keep the scene invariant |
| Animation.FrameKeepsInv | joshabout.js:289-337 | every frame keeps the scene invariant |
| Animation.PointerMoveKeepsInv | joshabout.js:252-273 | every pointer move keeps the scene invariant |
| Animation.FallingSurvives | joshabout.js:124-128 | a plain guitar well above the ground line survives its update, one step lower |
| Animation.SettleKeepsFalling | joshabout.js:317-321 | when every guitar is plain and well above the ground line, the guitar pass keeps them all, each one step lower |
| Animation.TwoSpawns | joshabout.js:296-300 | from the starting scene, the frame at 2001 ms has one guitar and the next frame at 4002 ms has two |
| Sweep.SurvivorsMembers | joshabout.js:317-334 | the filter keeps exactly the entries that are not dead |
| Sweep.ReverseConcatMembers | joshabout.js:317-321 | a reverse loop pushes exactly what its entries release |
| Sweep.ReverseConcatLength | joshabout.js:317-321 | when each entry releases nothing or k values, the loop pushes k per releasing entry |
| Sweep.ReverseSplice | joshabout.js:324-327 | the reverse update-and-splice loop leaves exactly the updated entries that are not dead, in their original order |

Two details of the code that the model follows:
- The glow timer resets whenever it fires, even when no guitar is eligible (joshabout.js:303-304).
- The update on which a glowing guitar reaches scale 3 already applies the first exploding step (joshabout.js:106-122).

## Left out

- Drawing: the outlines, the glyphs, the stickman figure, `clearRect` and `resize` (joshabout.js:3-11, 50-99, 130-131, 155-161, 180-225, 232, 294). They have no effect on the simulation state.
- The sideways wiggle of notes: `Math.sin` is a parameter `sin` of the note update, so a note's x after an update is whatever the host's sine gives.
- `Math.random()`: every draw is a parameter of type `Chance.Unit`. The model says nothing about distributions.
- Guitar fields that only the drawing reads (`rotation`, `size`) and the unused `spawnTime`, together with their draws. Also the unused frame delta `dt`/`lastTime`.
- `performance.now()` is the parameter `clock`. It is used only where the stickman constructor falls back on it.
- `requestAnimationFrame` and the mousemove event plumbing (joshabout.js:276-283 beyond the call of `handleHover`, 336-340). Frames and pointer moves are separate operations on the scene; the host decides how they interleave.
- Floating point: all arithmetic is exact, and rounding is not modelled. The tick counts (49 growing updates, death on the 61st, 180 and 120 note updates) are proved for the exact model. From other starting values, a double comparison at a threshold could come out differently from the exact one.
- Chance.Rand: no bounds are stated when hi < lo. That happens for `spawnGuitar` on a canvas narrower than 80 pixels. The value is still the source's `u * (hi - lo) + lo`.
- Animation.SpawnGuitar: the margin bound on x is stated only for canvases at least 80 pixels wide, for the same reason.
- The gallery popup (joshabout.js:350-366): it only toggles a DOM class.
- `joshHomescript.js` and `joshcontact.js`: DOM text cycling, form alerts and clipboard writes, with no simulation logic.
