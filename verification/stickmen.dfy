/** The `Stickman` actor of joshabout.js: stands where a guitar landed, strums for a
    fixed time and now and then releases a music note. */
module Stickmen {
  import opened Chance
  import opened Notes

  /** Milliseconds a stickman strums. */
  const Duration: real := 3000.0

  /** Chance per update of releasing a note. */
  const EmitChance: real := 0.08

  const StrumPalette: seq<string> := ["#ffffff", "#FFA500", "#FF3B3B"]

  datatype Stickman = Stickman(x: real, y: real, start: real, dead: bool)

  /** The `Stickman` constructor. `startTime || performance.now()` falls back to the
      host clock only when the given start time is 0. */
  function New(x: real, y: real, startTime: real, clock: real): (s: Stickman)
    ensures s.x == x && s.y == y && !s.dead
    ensures startTime != 0.0 ==> s.start == startTime
    ensures startTime == 0.0 ==> s.start == clock
  {
    Stickman(x, y, if startTime != 0.0 then startTime else clock, false)
  }

  /** Normalised progress through the strum. */
  function Progress(s: Stickman, now: real): real {
    (now - s.start) / Duration
  }

  datatype Strum = Strum(man: Stickman, notes: seq<Note>)

  /** `Stickman.update` without the drawing. Past the end of its strum it is marked
      dead and returns at once; otherwise the coin decides whether one music note
      leaves the strumming hand. */
  function Update(s: Stickman, now: real, d: StrumDraw): (r: Strum)
    ensures r.man == s.(dead := r.man.dead)
    ensures r.man.dead <==> s.dead || now - s.start > Duration
    ensures now - s.start > Duration ==> r.notes == []
    ensures |r.notes| == (if now - s.start <= Duration && d.coin < EmitChance then 1 else 0)
    ensures forall n :: n in r.notes ==>
              !n.isHeart && n.life == MusicLife && n.alpha == 1.0 && n.color in StrumPalette
              && (n.symbol == MusicNote || n.symbol == BeamedNotes)
              && s.x + 10.0 <= n.x < s.x + 26.0 && s.y - 14.0 <= n.y < s.y + 2.0
  {
    if Progress(s, now) > 1.0 then
      Strum(s.(dead := true), [])
    else if d.coin < EmitChance then
      var note := Notes.New(s.x + 18.0, s.y - 6.0, Pick(StrumPalette, d.color), None, false, d.note);
      Strum(s, [note])
    else
      Strum(s, [])
  }

  /** A stickman started at a nonzero frame time strums for exactly 3000 ms: an
      update at `now` leaves it alive iff at most 3000 ms have passed. */
  lemma Lifetime(x: real, y: real, startTime: real, clock: real, now: real, d: StrumDraw)
    requires startTime != 0.0
    ensures !Update(New(x, y, startTime, clock), now, d).man.dead <==> now <= startTime + Duration
  {
  }

  /** A stickman updated at the frame times `times` in turn, `d(i)` drawing for the
      i-th update, and the notes it released, in order. Once dead it is swept and
      no longer updated. */
  function Run(s: Stickman, times: seq<real>, d: nat -> StrumDraw): Strum {
    if |times| == 0 then Strum(s, [])
    else
      var last := |times| - 1;
      var prev := Run(s, times[..last], d);
      if prev.man.dead then prev
      else
        var st := Update(prev.man, times[last], d(last));
        Strum(st.man, prev.notes + st.notes)
  }

  /** Over any run of updates a live stickman stays where it stands, dies exactly
      when some update comes more than 3000 ms after its start, and releases at
      most one note per update, every one of them a music note. */
  lemma {:induction false} RunLifetime(s: Stickman, times: seq<real>, d: nat -> StrumDraw)
    requires !s.dead
    ensures var r := Run(s, times, d);
      && r.man == s.(dead := r.man.dead)
      && (r.man.dead <==> exists i :: 0 <= i < |times| && times[i] - s.start > Duration)
      && |r.notes| <= |times|
      && (forall n :: n in r.notes ==> !n.isHeart && n.life == MusicLife && n.color in StrumPalette)
  {
    if |times| > 0 {
      var last := |times| - 1;
      RunLifetime(s, times[..last], d);
      assert forall i :: 0 <= i < last ==> times[..last][i] == times[i];
    }
  }
}
