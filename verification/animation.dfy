/** The scene and frame loop of joshabout.js: the three actor arrays, the spawn and
    glow-pick timers, `animate` and the scene-level effect of `handleHover`. */
module Animation {
  import opened Chance
  import opened Sweep
  import Notes
  import Stickmen
  import Guitars
  import Hover

  /** Milliseconds between guitar spawns and between glow picks. */
  const SpawnInterval: real := 2000.0
  const GlowInterval: real := 5000.0

  /** Spawned guitars keep this far from the left and right edges. */
  const SpawnMargin: real := 40.0

  /** The drawing surface's size in pixels. */
  datatype Canvas = Canvas(width: nat, height: nat)

  datatype Scene = Scene(
    guitars: seq<Guitars.Guitar>,
    notes: seq<Notes.Note>,
    stickmen: seq<Stickmen.Stickman>,
    lastSpawn: real,
    lastGlowPick: real)

  /** The state when the page loads: no actors, both timers at 0. */
  const Initial: Scene := Scene([], [], [], 0.0, 0.0)

  // ----- spawning -----

  /** The guitar `spawnGuitar` creates: a coin for the type, a position inside the
      margins, then the constructor's speed. */
  function SpawnGuitar(width: real, d: SpawnDraw): (g: Guitars.Guitar)
    ensures g.y == Guitars.StartY && g.scale == 1.0 && g.alpha == 1.0
    ensures !g.glow && !g.exploding && !g.dead
    ensures g.kind == (if d.kind > 0.5 then Guitars.Acoustic else Guitars.Electric)
    ensures 2.0 * SpawnMargin <= width ==> SpawnMargin <= g.x <= width - SpawnMargin
  {
    var kind := if d.kind > 0.5 then Guitars.Acoustic else Guitars.Electric;
    Guitars.New(Rand(d.x, SpawnMargin, width - SpawnMargin), kind, d.speed)
  }

  /** Whether the spawn timer fires: strictly more than 2000 ms since the last spawn. */
  predicate SpawnDue(s: Scene, time: real) {
    time - s.lastSpawn > SpawnInterval
  }

  /** The spawn step of `animate`. */
  function Spawn(s: Scene, time: real, width: real, d: SpawnDraw): (r: Scene)
    ensures |r.guitars| == |s.guitars| + (if SpawnDue(s, time) then 1 else 0)
    ensures r.guitars[..|s.guitars|] == s.guitars
    ensures SpawnDue(s, time) ==> r.guitars[|s.guitars|] == SpawnGuitar(width, d)
    ensures r.lastSpawn == if SpawnDue(s, time) then time else s.lastSpawn
    ensures r.notes == s.notes && r.stickmen == s.stickmen && r.lastGlowPick == s.lastGlowPick
  {
    if SpawnDue(s, time) then
      s.(guitars := s.guitars + [SpawnGuitar(width, d)], lastSpawn := time)
    else s
  }

  // ----- glow picking -----

  /** A guitar the glow pick may choose: alive, not glowing, not exploding. */
  predicate Eligible(g: Guitars.Guitar) {
    !g.dead && !g.glow && !g.exploding
  }

  /** The indices of the eligible guitars, in order (the `filter` of `animate`). */
  function Candidates(gs: seq<Guitars.Guitar>): (r: seq<nat>)
    ensures forall j :: 0 <= j < |r| ==> r[j] < |gs| && Eligible(gs[r[j]])
    ensures forall i :: 0 <= i < |gs| && Eligible(gs[i]) ==> i in r
    ensures forall j, k :: 0 <= j < k < |r| ==> r[j] < r[k]
  {
    if |gs| == 0 then []
    else
      var last := |gs| - 1;
      assert forall i :: 0 <= i < last ==> gs[..last][i] == gs[i];
      Candidates(gs[..last]) + (if Eligible(gs[last]) then [last] else [])
  }

  /** Whether the glow timer fires: strictly more than 5000 ms since the last pick. */
  predicate GlowDue(s: Scene, time: real) {
    time - s.lastGlowPick > GlowInterval
  }

  /** The glow-pick step of `animate`: when the timer fires it restarts, and the
      candidate the draw selects starts to glow. */
  function GlowPick(s: Scene, time: real, u: Unit): (r: Scene)
    ensures r.lastGlowPick == if GlowDue(s, time) then time else s.lastGlowPick
    ensures |r.guitars| == |s.guitars|
    // only an eligible guitar changes, and it only gains the glow flag
    ensures forall i :: 0 <= i < |s.guitars| ==>
              r.guitars[i] == s.guitars[i]
              || (Eligible(s.guitars[i]) && r.guitars[i] == s.guitars[i].(glow := true))
    // at most one guitar changes
    ensures forall i, j ::
              (0 <= i < |s.guitars| && 0 <= j < |s.guitars|
               && r.guitars[i] != s.guitars[i] && r.guitars[j] != s.guitars[j]) ==> i == j
    // when the timer fires and some guitar is eligible, one does change
    ensures GlowDue(s, time) && (exists i :: 0 <= i < |s.guitars| && Eligible(s.guitars[i])) ==>
              exists i :: 0 <= i < |s.guitars| && r.guitars[i] != s.guitars[i]
    ensures !GlowDue(s, time) ==> r.guitars == s.guitars
    ensures r.notes == s.notes && r.stickmen == s.stickmen && r.lastSpawn == s.lastSpawn
  {
    if !GlowDue(s, time) then s
    else
      var c := Candidates(s.guitars);
      if |s.guitars| > 0 && |c| > 0 then
        var pick := c[PickIndex(u, |c|)];
        var g := s.guitars[pick];
        assert g.(glow := true) != g;
        s.(lastGlowPick := time, guitars := s.guitars[pick := g.(glow := true)])
      else
        s.(lastGlowPick := time)
  }

  // ----- the update-and-sweep passes -----

  predicate GuitarGone(g: Guitars.Guitar) {
    g.dead
  }

  predicate ManGone(m: Stickmen.Stickman) {
    m.dead
  }

  /** Each guitar's update in this frame; `hearts(i)` draws the hearts of the guitar at index i. */
  function GuitarSteps(gs: seq<Guitars.Guitar>, now: real, height: real, hearts: nat -> nat -> BurstDraw, clock: real): seq<Guitars.Step> {
    seq(|gs|, i requires 0 <= i < |gs| => GuitarStep(gs[i], now, height, hearts(i), clock))
  }

  /** The update of one guitar as the frame loop calls it. */
  function GuitarStep(g: Guitars.Guitar, now: real, height: real, hearts: nat -> BurstDraw, clock: real): Guitars.Step {
    Guitars.Update(g, now, height, hearts, clock)
  }

  function Bodies(steps: seq<Guitars.Step>): seq<Guitars.Guitar> {
    seq(|steps|, i requires 0 <= i < |steps| => steps[i].guitar)
  }

  function HeartsOf(steps: seq<Guitars.Step>): seq<seq<Notes.Note>> {
    seq(|steps|, i requires 0 <= i < |steps| => steps[i].hearts)
  }

  function LandedOf(steps: seq<Guitars.Step>): seq<seq<Stickmen.Stickman>> {
    seq(|steps|, i requires 0 <= i < |steps| => steps[i].stickmen)
  }

  /** The note update of this frame, as a value that can be handed to a loop. */
  function NoteStep(sin: real -> real): Notes.Note -> Notes.Note {
    n => Notes.Update(n, sin)
  }

  function NotesUpdated(ns: seq<Notes.Note>, sin: real -> real): seq<Notes.Note> {
    Stepped(ns, NoteStep(sin))
  }

  /** Each stickman's update in this frame; `strums(i)` draws for the stickman at index i. */
  function Strums(ms: seq<Stickmen.Stickman>, now: real, strums: nat -> StrumDraw): seq<Stickmen.Strum> {
    seq(|ms|, i requires 0 <= i < |ms| => Stickmen.Update(ms[i], now, strums(i)))
  }

  function Men(strums: seq<Stickmen.Strum>): seq<Stickmen.Stickman> {
    seq(|strums|, i requires 0 <= i < |strums| => strums[i].man)
  }

  function StrumNotes(strums: seq<Stickmen.Strum>): seq<seq<Notes.Note>> {
    seq(|strums|, i requires 0 <= i < |strums| => strums[i].notes)
  }

  /** The update-and-sweep part of a frame on the scene `s` after spawning and glow
      picking. Guitars are updated first, so the hearts and stickmen they release
      are updated in the same frame; the notes stickmen release are pushed after
      the note sweep and wait for the next frame. Each array keeps exactly its
      entries that are not dead after their own update, in their original order. */
  function Settle(s: Scene, time: real, height: real, d: FrameDraws, sin: real -> real, clock: real): (r: Scene)
    ensures r.lastSpawn == s.lastSpawn && r.lastGlowPick == s.lastGlowPick
    ensures |r.guitars| <= |s.guitars|
  {
    var steps := GuitarSteps(s.guitars, time, height, d.hearts, clock);
    var notes := s.notes + ReverseConcat(HeartsOf(steps));
    var strums := Strums(s.stickmen + ReverseConcat(LandedOf(steps)), time, d.strums);
    Scene(
      Survivors(Bodies(steps), GuitarGone),
      Survivors(NotesUpdated(notes, sin), Notes.IsDead) + ReverseConcat(StrumNotes(strums)),
      Survivors(Men(strums), ManGone),
      s.lastSpawn,
      s.lastGlowPick)
  }

  /** One frame of `animate` at `time`, drawing left out: spawn, glow pick, then
      update and sweep. */
  function Frame(s: Scene, time: real, canvas: Canvas, d: FrameDraws, sin: real -> real, clock: real): (r: Scene)
    ensures r.lastSpawn == if SpawnDue(s, time) then time else s.lastSpawn
    ensures r.lastGlowPick == if GlowDue(s, time) then time else s.lastGlowPick
    ensures |r.guitars| <= |s.guitars| + 1
  {
    Settle(GlowPick(Spawn(s, time, canvas.width as real, d.spawn), time, d.glowPick),
           time, canvas.height as real, d, sin, clock)
  }

  /** A note a stickman releases is alive. */
  lemma ReleasedAlive(ms: seq<Stickmen.Stickman>, time: real, strums: nat -> StrumDraw)
    ensures forall n :: n in ReverseConcat(StrumNotes(Strums(ms, time, strums))) ==> !Notes.IsDead(n)
  {
    var st := Strums(ms, time, strums);
    forall n | n in ReverseConcat(StrumNotes(st))
      ensures !Notes.IsDead(n)
    {
      ReverseConcatMembers(StrumNotes(st), n);
      var i :| 0 <= i < |st| && n in StrumNotes(st)[i];
      var strum := Stickmen.Update(ms[i], time, strums(i));
      assert st[i] == strum;
      assert n in strum.notes;
    }
  }

  /** After a frame nothing dead is left: dead guitars and stickmen are swept, and
      every note is either a survivor of the note sweep or a note a stickman has
      just released. */
  lemma SettleAlive(s: Scene, time: real, height: real, d: FrameDraws, sin: real -> real, clock: real)
    ensures var r := Settle(s, time, height, d, sin, clock);
      && (forall g :: g in r.guitars ==> !g.dead)
      && (forall m :: m in r.stickmen ==> !m.dead)
      && (forall n :: n in r.notes ==> !Notes.IsDead(n))
  {
    var steps := GuitarSteps(s.guitars, time, height, d.hearts, clock);
    var notes := s.notes + ReverseConcat(HeartsOf(steps));
    var ms := s.stickmen + ReverseConcat(LandedOf(steps));
    SurvivorsAlive(Bodies(steps), GuitarGone);
    SurvivorsAlive(Men(Strums(ms, time, d.strums)), ManGone);
    SurvivorsAlive(NotesUpdated(notes, sin), Notes.IsDead);
    ReleasedAlive(ms, time, d.strums);
  }

  lemma FrameAlive(s: Scene, time: real, canvas: Canvas, d: FrameDraws, sin: real -> real, clock: real)
    ensures var r := Frame(s, time, canvas, d, sin, clock);
      && (forall g :: g in r.guitars ==> !g.dead)
      && (forall m :: m in r.stickmen ==> !m.dead)
      && (forall n :: n in r.notes ==> !Notes.IsDead(n))
  {
    SettleAlive(GlowPick(Spawn(s, time, canvas.width as real, d.spawn), time, d.glowPick),
                time, canvas.height as real, d, sin, clock);
  }

  /** A guitar whose update left it exploding and fully faded: it has just burst. */
  predicate BurntOut(g: Guitars.Guitar) {
    g.exploding && g.alpha <= 0.0
  }

  function LandsAt(height: real): Guitars.Guitar -> bool {
    g => Guitars.Lands(g, height)
  }

  /** The guitar pass of a frame releases eight hearts for every guitar that burst,
      and nothing else into the notes. */
  lemma HeartsReleased(gs: seq<Guitars.Guitar>, now: real, height: real, hearts: nat -> nat -> BurstDraw, clock: real)
    ensures var steps := GuitarSteps(gs, now, height, hearts, clock);
      |ReverseConcat(HeartsOf(steps))| == Guitars.HeartCount * Count(Bodies(steps), BurntOut)
  {
    var steps := GuitarSteps(gs, now, height, hearts, clock);
    forall i | 0 <= i < |steps|
      ensures |HeartsOf(steps)[i]| == 0 || |HeartsOf(steps)[i]| == Guitars.HeartCount
      ensures NonEmpty(HeartsOf(steps)[i]) <==> BurntOut(Bodies(steps)[i])
    {
      assert steps[i] == Guitars.Update(gs[i], now, height, hearts(i), clock);
    }
    ReverseConcatLength(HeartsOf(steps), Guitars.HeartCount);
    CountAlike(HeartsOf(steps), NonEmpty, Bodies(steps), BurntOut);
  }

  /** The guitar pass of a frame pushes one stickman for every guitar that landed,
      and no other. */
  lemma StickmenReleased(gs: seq<Guitars.Guitar>, now: real, height: real, hearts: nat -> nat -> BurstDraw, clock: real)
    ensures var steps := GuitarSteps(gs, now, height, hearts, clock);
      |ReverseConcat(LandedOf(steps))| == Count(gs, LandsAt(height))
  {
    var steps := GuitarSteps(gs, now, height, hearts, clock);
    forall i | 0 <= i < |steps|
      ensures |LandedOf(steps)[i]| == 0 || |LandedOf(steps)[i]| == 1
      ensures NonEmpty(LandedOf(steps)[i]) <==> LandsAt(height)(gs[i])
    {
      assert steps[i] == Guitars.Update(gs[i], now, height, hearts(i), clock);
    }
    ReverseConcatLength(LandedOf(steps), 1);
    CountAlike(LandedOf(steps), NonEmpty, gs, LandsAt(height));
  }

  // ----- the loops as written -----

  /** The guitar loop of `animate`: from the last index down, update, push what
      the update releases, and splice the guitar out if it died. */
  method SweepGuitars(
    guitars: seq<Guitars.Guitar>, notes: seq<Notes.Note>, stickmen: seq<Stickmen.Stickman>,
    time: real, height: real, hearts: nat -> nat -> BurstDraw, clock: real)
    returns (gs: seq<Guitars.Guitar>, ns: seq<Notes.Note>, ms: seq<Stickmen.Stickman>)
    ensures gs == Survivors(Bodies(GuitarSteps(guitars, time, height, hearts, clock)), GuitarGone)
    ensures ns == notes + ReverseConcat(HeartsOf(GuitarSteps(guitars, time, height, hearts, clock)))
    ensures ms == stickmen + ReverseConcat(LandedOf(GuitarSteps(guitars, time, height, hearts, clock)))
  {
    ghost var steps := GuitarSteps(guitars, time, height, hearts, clock);
    gs, ns, ms := guitars, notes, stickmen;
    var i := |guitars|;
    while i > 0
      invariant 0 <= i <= |guitars|
      invariant gs == guitars[..i] + Survivors(Bodies(steps)[i..], GuitarGone)
      invariant ns == notes + ReverseConcat(HeartsOf(steps)[i..])
      invariant ms == stickmen + ReverseConcat(LandedOf(steps)[i..])
    {
      i := i - 1;
      assert gs[i] == guitars[i] by {
        assert guitars[..i + 1] == guitars[..i] + [guitars[i]];
      }
      var st := GuitarStep(gs[i], time, height, hearts(i), clock);
      SpliceStep(guitars, Bodies(steps), GuitarGone, gs, i, st.guitar);
      EmitStep(notes, HeartsOf(steps), ns, i);
      EmitStep(stickmen, LandedOf(steps), ms, i);
      ns := ns + st.hearts;
      ms := ms + st.stickmen;
      if st.guitar.dead {
        gs := gs[..i] + gs[i + 1..];
      } else {
        gs := gs[..i] + [st.guitar] + gs[i + 1..];
      }
    }
    assert guitars[..0] == [];
  }

  /** The note loop of `animate`. */
  method SweepNotes(notes: seq<Notes.Note>, sin: real -> real) returns (ns: seq<Notes.Note>)
    ensures ns == Survivors(NotesUpdated(notes, sin), Notes.IsDead)
  {
    ns := ReverseSplice(notes, NoteStep(sin), Notes.IsDead);
  }

  /** The stickman loop of `animate`: from the last index down, update, push the
      released note, and splice the stickman out if its time is up. */
  method SweepStickmen(stickmen: seq<Stickmen.Stickman>, notes: seq<Notes.Note>, time: real, strums: nat -> StrumDraw)
    returns (ms: seq<Stickmen.Stickman>, ns: seq<Notes.Note>)
    ensures ms == Survivors(Men(Strums(stickmen, time, strums)), ManGone)
    ensures ns == notes + ReverseConcat(StrumNotes(Strums(stickmen, time, strums)))
  {
    ghost var steps := Strums(stickmen, time, strums);
    ms, ns := stickmen, notes;
    var i := |stickmen|;
    while i > 0
      invariant 0 <= i <= |stickmen|
      invariant ms == stickmen[..i] + Survivors(Men(steps)[i..], ManGone)
      invariant ns == notes + ReverseConcat(StrumNotes(steps)[i..])
    {
      i := i - 1;
      assert ms[i] == stickmen[i] by {
        assert stickmen[..i + 1] == stickmen[..i] + [stickmen[i]];
      }
      var st := Stickmen.Update(ms[i], time, strums(i));
      SpliceStep(stickmen, Men(steps), ManGone, ms, i, st.man);
      EmitStep(notes, StrumNotes(steps), ns, i);
      ns := ns + st.notes;
      if st.man.dead {
        ms := ms[..i] + ms[i + 1..];
      } else {
        ms := ms[..i] + [st.man] + ms[i + 1..];
      }
    }
    assert stickmen[..0] == [];
  }

  /** `animate(time)` with the drawing left out: spawn, glow pick, then the three
      reverse splice loops. It computes exactly `Frame`. */
  method Animate(s: Scene, time: real, canvas: Canvas, d: FrameDraws, sin: real -> real, clock: real)
    returns (r: Scene)
    ensures r == Frame(s, time, canvas, d, sin, clock)
  {
    var s1 := GlowPick(Spawn(s, time, canvas.width as real, d.spawn), time, d.glowPick);
    var guitars, notes, stickmen :=
      SweepGuitars(s1.guitars, s1.notes, s1.stickmen, time, canvas.height as real, d.hearts, clock);
    notes := SweepNotes(notes, sin);
    stickmen, notes := SweepStickmen(stickmen, notes, time, d.strums);
    r := Scene(guitars, notes, stickmen, s1.lastSpawn, s1.lastGlowPick);
  }

  // ----- hover on the scene -----

  /** A mouse move at (mx, my): guitars change in place, pop notes are pushed. */
  function PointerMove(s: Scene, mx: real, my: real, pops: nat -> nat -> BurstDraw): (r: Scene)
    ensures |r.guitars| == |s.guitars|
    ensures |r.notes| == |s.notes| + Hover.PopSize * Hover.Popped(s.guitars, mx, my)
    ensures r.notes[..|s.notes|] == s.notes
    ensures r.stickmen == s.stickmen && r.lastSpawn == s.lastSpawn && r.lastGlowPick == s.lastGlowPick
  {
    var h := Hover.HandleHover(s.guitars, mx, my, pops);
    s.(guitars := h.guitars, notes := s.notes + h.notes)
  }

  // ----- invariants and scenarios -----

  /** What every guitar in the scene satisfies: it explodes only after glowing,
      a dead one (popped, awaiting the sweep) neither glows nor explodes, it never
      shrinks below its starting size, and it is not yet fully faded. */
  predicate Sound(g: Guitars.Guitar) {
    && (g.exploding ==> g.glow)
    && (g.dead ==> !g.glow && !g.exploding)
    && 1.0 <= g.scale
    && 0.0 < g.alpha
  }

  predicate Inv(s: Scene) {
    forall g :: g in s.guitars ==> Sound(g)
  }

  lemma InitialInv()
    ensures Inv(Initial)
  {
  }

  /** A sound guitar that survives its update is still sound. */
  lemma UpdateKeepsSound(g: Guitars.Guitar, now: real, height: real, hearts: nat -> BurstDraw, clock: real)
    requires Sound(g)
    ensures var r := Guitars.Update(g, now, height, hearts, clock).guitar; !r.dead ==> Sound(r)
  {
  }

  lemma SpawnKeepsInv(s: Scene, time: real, width: real, d: SpawnDraw)
    requires Inv(s)
    ensures Inv(Spawn(s, time, width, d))
  {
    var r := Spawn(s, time, width, d);
    forall g | g in r.guitars
      ensures Sound(g)
    {
      var k :| 0 <= k < |r.guitars| && r.guitars[k] == g;
      if k < |s.guitars| {
        assert r.guitars[..|s.guitars|][k] == g;
      }
    }
  }

  lemma GlowPickKeepsInv(s: Scene, time: real, u: Unit)
    requires Inv(s)
    ensures Inv(GlowPick(s, time, u))
  {
    var r := GlowPick(s, time, u);
    forall g | g in r.guitars
      ensures Sound(g)
    {
      var k :| 0 <= k < |r.guitars| && r.guitars[k] == g;
      assert s.guitars[k] in s.guitars;
    }
  }

  lemma SettleKeepsInv(s: Scene, time: real, height: real, d: FrameDraws, sin: real -> real, clock: real)
    requires Inv(s)
    ensures Inv(Settle(s, time, height, d, sin, clock))
  {
    var steps := GuitarSteps(s.guitars, time, height, d.hearts, clock);
    forall g | g in Survivors(Bodies(steps), GuitarGone)
      ensures Sound(g)
    {
      SurvivorsMembers(Bodies(steps), GuitarGone, g);
      var k :| 0 <= k < |steps| && Bodies(steps)[k] == g;
      assert s.guitars[k] in s.guitars;
      UpdateKeepsSound(s.guitars[k], time, height, d.hearts(k), clock);
    }
  }

  /** Every frame keeps the scene invariant. */
  lemma FrameKeepsInv(s: Scene, time: real, canvas: Canvas, d: FrameDraws, sin: real -> real, clock: real)
    requires Inv(s)
    ensures Inv(Frame(s, time, canvas, d, sin, clock))
  {
    var s0 := Spawn(s, time, canvas.width as real, d.spawn);
    SpawnKeepsInv(s, time, canvas.width as real, d.spawn);
    GlowPickKeepsInv(s0, time, d.glowPick);
    SettleKeepsInv(GlowPick(s0, time, d.glowPick), time, canvas.height as real, d, sin, clock);
  }

  /** Every mouse move keeps the scene invariant. */
  lemma PointerMoveKeepsInv(s: Scene, mx: real, my: real, pops: nat -> nat -> BurstDraw)
    requires Inv(s)
    ensures Inv(PointerMove(s, mx, my, pops))
  {
    var r := PointerMove(s, mx, my, pops);
    forall g | g in r.guitars
      ensures Sound(g)
    {
      var k :| 0 <= k < |r.guitars| && r.guitars[k] == g;
      assert s.guitars[k] in s.guitars;
    }
  }

  /** A guitar still falling well above the ground line survives its update. */
  lemma FallingSurvives(g: Guitars.Guitar, now: real, height: real, hearts: nat -> BurstDraw, clock: real)
    requires !g.dead && !g.glow && !g.exploding && 0.0 <= height
    requires g.y + g.speed <= -Guitars.GroundMargin
    ensures var r := Guitars.Update(g, now, height, hearts, clock).guitar;
      !r.dead && r.y == g.y + g.speed && !r.glow && !r.exploding && r.speed == g.speed
  {
  }

  /** A frame in which every guitar is a falling one well above the ground keeps them all. */
  lemma SettleKeepsFalling(s: Scene, time: real, height: real, d: FrameDraws, sin: real -> real, clock: real)
    requires 0.0 <= height
    requires forall i :: 0 <= i < |s.guitars| ==>
               !s.guitars[i].dead && !s.guitars[i].glow && !s.guitars[i].exploding
               && s.guitars[i].y + s.guitars[i].speed <= -Guitars.GroundMargin
    ensures Settle(s, time, height, d, sin, clock).guitars
            == Bodies(GuitarSteps(s.guitars, time, height, d.hearts, clock))
    ensures forall i :: 0 <= i < |s.guitars| ==>
              Settle(s, time, height, d, sin, clock).guitars[i].y == s.guitars[i].y + s.guitars[i].speed
  {
    var steps := GuitarSteps(s.guitars, time, height, d.hearts, clock);
    forall i | 0 <= i < |steps|
      ensures !GuitarGone(Bodies(steps)[i]) && Bodies(steps)[i].y == s.guitars[i].y + s.guitars[i].speed
    {
      FallingSurvives(s.guitars[i], time, height, d.hearts(i), clock);
    }
    SurvivorsAllAlive(Bodies(steps), GuitarGone);
  }

  /** From page load, the frame at 2001 ms spawns the first guitar and the frame
      at 4002 ms the second; neither has reached the ground yet. */
  lemma TwoSpawns(canvas: Canvas, d1: FrameDraws, d2: FrameDraws, sin: real -> real, clock: real)
    ensures |Frame(Initial, 2001.0, canvas, d1, sin, clock).guitars| == 1
    ensures |Frame(Frame(Initial, 2001.0, canvas, d1, sin, clock), 4002.0, canvas, d2, sin, clock).guitars| == 2
  {
    var height := canvas.height as real;
    var width := canvas.width as real;
    var s1 := GlowPick(Spawn(Initial, 2001.0, width, d1.spawn), 2001.0, d1.glowPick);
    assert s1.guitars == [SpawnGuitar(width, d1.spawn)];
    SettleKeepsFalling(s1, 2001.0, height, d1, sin, clock);
    var a := Frame(Initial, 2001.0, canvas, d1, sin, clock);
    assert |a.guitars| == 1 && a.guitars[0].y == Guitars.StartY + s1.guitars[0].speed;
    var s2 := GlowPick(Spawn(a, 4002.0, width, d2.spawn), 4002.0, d2.glowPick);
    assert s2.guitars == a.guitars + [SpawnGuitar(width, d2.spawn)];
    assert a.guitars[0] == Bodies(GuitarSteps(s1.guitars, 2001.0, height, d1.hearts, clock))[0];
    FallingSurvives(s1.guitars[0], 2001.0, height, d1.hearts(0), clock);
    SettleKeepsFalling(s2, 4002.0, height, d2, sin, clock);
  }
}
