/** The timeline of the ten-second animation in video1/script.js.

    `updateAnimation` first restores a baseline (`resetAllAnimations`) and
    then re-applies every rule whose time threshold holds.  The page elements
    it writes to are abstracted as one record, `Scene`; both steps become
    functions on that record, and `Shows` is the table of intervals the
    rules are meant to realise.
 */
module Timeline {

  /** Length of the animation in seconds (`totalAnimationTime`). */
  const TotalDuration: real := 10.0

  /** The two `Math.random()` readings drawn for one death particle. */
  datatype Draw = Draw(x: real, y: real)

  /** A death particle's trajectory: its `--tx` and `--ty` offsets, in pixels. */
  datatype Particle = Particle(tx: real, ty: real)

  /** What the page shows.  Opacities are the values written to `style.opacity`. */
  datatype Scene = Scene(
    goodSteveEntered: bool,   // entrance animation set and `left` moved to 30%
    evilSteveEntered: bool,   // entrance animation set and `right` moved to 30%
    lookAround: bool,         // class `look-around` on Good Steve
    evilEye: bool,            // class `evil-eye` on Evil Steve's eyes
    laserFire: bool,          // class `laser-fire` on the laser beam
    deathShow: bool,          // class `death-show` on the death animation
    goodSteveOpacity: real,
    laserOpacity: real,
    laserWidth: real,
    text1: real,
    text2: real,
    text3: real,
    text4: real,
    text5: real,
    particles: seq<Particle>
  )

  /** The page before any update: both Steves off stage, nothing shown. */
  const Initial: Scene :=
    Scene(false, false, false, false, false, false, 1.0, 0.0, 0.0,
          0.0, 0.0, 0.0, 0.0, 0.0, [])

  function Opacity(visible: bool): real {
    if visible then 1.0 else 0.0
  }

  /** The timeline table: what is on at time `t`.  Captions and the laser
      are on exactly on their half-open intervals, the class flags from their
      threshold on, and an entrance, once made, is never taken back (hence
      only an implication for the two entrance fields). */
  predicate Shows(s: Scene, t: real) {
    (t >= 0.5 ==> s.goodSteveEntered) &&
    (t >= 3.5 ==> s.evilSteveEntered) &&
    s.lookAround == (t >= 2.0) &&
    s.evilEye == (t >= 6.5) &&
    s.laserFire == (t >= 7.5) &&
    s.deathShow == (t >= 8.0) &&
    s.goodSteveOpacity == Opacity(t < 8.0) &&
    s.laserOpacity == 0.0 &&
    s.laserWidth == 0.0 &&
    s.text1 == Opacity(1.0 <= t < 2.5) &&
    s.text2 == Opacity(4.0 <= t < 5.0) &&
    s.text3 == Opacity(5.2 <= t < 6.2) &&
    s.text4 == Opacity(6.8 <= t < 7.3) &&
    s.text5 == Opacity(7.5 <= t < 8.2)
  }

  /** The scene without its particle trajectories, the one random part. */
  function Deterministic(s: Scene): Scene {
    s.(particles := [])
  }

  /** `resetAllAnimations`: removes every class, restores Good Steve's
      opacity, zeroes the laser and hides all captions.  It never touches the
      entrance fields or the particle trajectories. */
  function ResetAll(s: Scene): (r: Scene)
    ensures Shows(r, 0.0)
    ensures r.goodSteveEntered == s.goodSteveEntered
    ensures r.evilSteveEntered == s.evilSteveEntered
    ensures r.particles == s.particles
  {
    s.(lookAround := false, evilEye := false, laserFire := false, deathShow := false,
       goodSteveOpacity := 1.0, laserOpacity := 0.0, laserWidth := 0.0,
       text1 := 0.0, text2 := 0.0, text3 := 0.0, text4 := 0.0, text5 := 0.0)
  }

  /** The random trajectories `updateAnimation` gives the particles:
      `tx = (x - 0.5) * 100` and `ty = -y * 100 - 50`.  The page has a fixed
      set of particle elements; the model does not fix their number, so the
      caller passes one `Draw` per particle and the result has that length. */
  function Scatter(draws: seq<Draw>): (ps: seq<Particle>)
    ensures |ps| == |draws|
    ensures forall i :: 0 <= i < |draws| && 0.0 <= draws[i].x < 1.0 ==> -50.0 <= ps[i].tx < 50.0
    ensures forall i :: 0 <= i < |draws| && 0.0 <= draws[i].y < 1.0 ==> -150.0 < ps[i].ty <= -50.0
  {
    seq(|draws|, i requires 0 <= i < |draws| =>
      Particle((draws[i].x - 0.5) * 100.0, -draws[i].y * 100.0 - 50.0))
  }

  /** The rules of `updateAnimation` after the reset, one step per `if`
      of the source, in the source's order. */
  function ApplyRules(s: Scene, t: real, draws: seq<Draw>): Scene {
    var s1 := if t >= 0.5 then s.(goodSteveEntered := true) else s;
    var s2 := if t >= 2.0 then s1.(lookAround := true) else s1;
    var s3 := s2.(text1 := if t >= 1.0 && t < 2.5 then 1.0 else 0.0);
    var s4 := if t >= 3.5 then s3.(evilSteveEntered := true) else s3;
    var s5 := s4.(text2 := if t >= 4.0 && t < 5.0 then 1.0 else 0.0);
    var s6 := s5.(text3 := if t >= 5.2 && t < 6.2 then 1.0 else 0.0);
    var s7 := if t >= 6.5 then s6.(evilEye := true) else s6;
    var s8 := s7.(text4 := if t >= 6.8 && t < 7.3 then 1.0 else 0.0);
    var s9 := if t >= 7.5 then
                s8.(laserFire := true, text5 := if t >= 7.5 && t < 8.2 then 1.0 else 0.0)
              else s8;
    if t >= 8.0 then
      s9.(goodSteveOpacity := 0.0, deathShow := true, particles := Scatter(draws))
    else s9
  }

  /** `updateAnimation` at time `t` (the scene dots are in `UpdateSceneDots`).
      The result follows the timeline table whatever scene it starts from;
      an entrance is made from its threshold on and never undone; the
      particles are re-rolled on every update at or after 8 s. */
  function Update(s: Scene, t: real, draws: seq<Draw>): (r: Scene)
    ensures Shows(r, t)
    ensures r.goodSteveEntered == (s.goodSteveEntered || t >= 0.5)
    ensures r.evilSteveEntered == (s.evilSteveEntered || t >= 3.5)
    ensures r.particles == if t >= 8.0 then Scatter(draws) else s.particles
  {
    ApplyRules(ResetAll(s), t, draws)
  }

  /** The table, the entrances and the particles determine the whole scene. */
  lemma ShowsDetermines(a: Scene, b: Scene, t: real)
    requires Shows(a, t) && Shows(b, t)
    requires a.goodSteveEntered == b.goodSteveEntered
    requires a.evilSteveEntered == b.evilSteveEntered
    ensures Deterministic(a) == Deterministic(b)
    ensures a.particles == b.particles ==> a == b
  {
  }

  /** Reset-then-reapply makes updating idempotent: a second update at the
      same time changes nothing but the particles it re-rolls. */
  lemma UpdateIdempotent(s: Scene, t: real, d1: seq<Draw>, d2: seq<Draw>)
    ensures Update(Update(s, t, d1), t, d2) == Update(s, t, d2)
  {
    ShowsDetermines(Update(Update(s, t, d1), t, d2), Update(s, t, d2), t);
  }

  /** Apart from the particles, an update depends only on the time and on
      the two entrance fields of the scene it starts from. */
  lemma UpdateDependsOnTimeAndEntrances(s1: Scene, s2: Scene, t: real, d1: seq<Draw>, d2: seq<Draw>)
    requires s1.goodSteveEntered == s2.goodSteveEntered
    requires s1.evilSteveEntered == s2.evilSteveEntered
    ensures Deterministic(Update(s1, t, d1)) == Deterministic(Update(s2, t, d2))
  {
    ShowsDetermines(Update(s1, t, d1), Update(s2, t, d2), t);
  }

  /** Seeking to the start restores the baseline exactly. */
  lemma SeekToStartIsReset(s: Scene, draws: seq<Draw>)
    ensures Update(s, 0.0, draws) == ResetAll(s)
  {
  }

  /** Each class flag is a monotone threshold: once on at `t1`, on at every later time,
      and off again after seeking back below its threshold. */
  lemma FlagsMonotone(s1: Scene, s2: Scene, t1: real, t2: real, d1: seq<Draw>, d2: seq<Draw>)
    requires t1 <= t2
    ensures var a, b := Update(s1, t1, d1), Update(s2, t2, d2);
      (a.lookAround ==> b.lookAround) && (a.evilEye ==> b.evilEye) &&
      (a.laserFire ==> b.laserFire) && (a.deathShow ==> b.deathShow) &&
      (b.goodSteveOpacity <= a.goodSteveOpacity) &&
      (t1 < 2.0 <= t2 ==> b.lookAround && !a.lookAround) &&
      (t1 < 6.5 <= t2 ==> b.evilEye && !a.evilEye) &&
      (t1 < 7.5 <= t2 ==> b.laserFire && !a.laserFire) &&
      (t1 < 8.0 <= t2 ==> b.deathShow && !a.deathShow)
  {
  }

  /** The caption intervals do not overlap: at most one caption is on at a time. */
  lemma AtMostOneCaption(s: Scene, t: real, draws: seq<Draw>)
    ensures var r := Update(s, t, draws);
      0.0 <= r.text1 + r.text2 + r.text3 + r.text4 + r.text5 <= 1.0
  {
  }

  /** One call of `updateAnimation`: the time it reads and the random
      readings it draws. */
  datatype Tick = Tick(time: real, draws: seq<Draw>)

  /** The scene after a run of updates, forward or backward in time. */
  function UpdateAll(s: Scene, ticks: seq<Tick>): Scene
    decreases |ticks|
  {
    if ticks == [] then s else UpdateAll(Update(s, ticks[0].time, ticks[0].draws), ticks[1..])
  }

  /** Entrances are sticky: after any run of updates Good Steve (Evil Steve)
      is at his 30% position iff he already was or some update ran at or
      after 0.5 s (3.5 s), whatever times came later. */
  lemma {:induction false} EntrancesSticky(s: Scene, ticks: seq<Tick>)
    ensures UpdateAll(s, ticks).goodSteveEntered <==>
      s.goodSteveEntered || exists i :: 0 <= i < |ticks| && ticks[i].time >= 0.5
    ensures UpdateAll(s, ticks).evilSteveEntered <==>
      s.evilSteveEntered || exists i :: 0 <= i < |ticks| && ticks[i].time >= 3.5
    decreases |ticks|
  {
    if ticks != [] {
      var rest := ticks[1..];
      EntrancesSticky(Update(s, ticks[0].time, ticks[0].draws), rest);
      forall i | 0 <= i < |rest|
        ensures rest[i] == ticks[i + 1]
      {
      }
      if exists i :: 0 <= i < |ticks| && ticks[i].time >= 0.5 {
        var i :| 0 <= i < |ticks| && ticks[i].time >= 0.5;
        if i > 0 {
          assert rest[i - 1].time >= 0.5;
        }
      }
      if exists i :: 0 <= i < |ticks| && ticks[i].time >= 3.5 {
        var i :| 0 <= i < |ticks| && ticks[i].time >= 3.5;
        if i > 0 {
          assert rest[i - 1].time >= 3.5;
        }
      }
    }
  }

  /** Whatever times came before, the scene after a run of updates follows
      the table at the time of the last update. */
  lemma {:induction false} UpdateAllShowsLast(s: Scene, ticks: seq<Tick>)
    requires ticks != []
    ensures Shows(UpdateAll(s, ticks), ticks[|ticks| - 1].time)
    decreases |ticks|
  {
    var s1 := Update(s, ticks[0].time, ticks[0].draws);
    if |ticks| > 1 {
      UpdateAllShowsLast(s1, ticks[1..]);
    } else {
      assert UpdateAll(s1, ticks[1..]) == s1;
    }
  }

  /** `updateSceneDots`' rule for each dot: active once its time is reached. */
  function DotsActive(dotTimes: seq<real>, t: real): (r: seq<bool>)
    ensures |r| == |dotTimes|
    ensures forall i :: 0 <= i < |r| ==> r[i] == (t >= dotTimes[i])
  {
    if dotTimes == [] then [] else [t >= dotTimes[0]] + DotsActive(dotTimes[1..], t)
  }

  /** `updateSceneDots`: sets each dot's `active` class from its time. */
  method UpdateSceneDots(dots: array<bool>, dotTimes: seq<real>, t: real)
    requires dots.Length == |dotTimes|
    modifies dots
    ensures dots[..] == DotsActive(dotTimes, t)
  {
    var i := 0;
    while i < dots.Length
      invariant 0 <= i <= dots.Length
      invariant forall j :: 0 <= j < i ==> dots[j] == (t >= dotTimes[j])
    {
      if t >= dotTimes[i] {
        dots[i] := true;
      } else {
        dots[i] := false;
      }
      i := i + 1;
    }
  }
}
