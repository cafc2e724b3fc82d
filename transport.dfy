/** The transport controls of video1/script.js: play, pause, reset, replay,
    the progress slider and the scene dots.  The module globals
    `isPlaying`, `animationTime` and the frame loop's `startTime` become the
    fields of one `Player`; a display frame is a call of `Frame` with the
    clock reading `now` (milliseconds), and the random readings an update
    draws are passed in as `draws`.
 */
module Transport {
  import opened Timeline

  /** Clock readings are milliseconds, animation time is seconds. */
  const MsPerSecond: real := 1000.0

  /** The animation time a slider value selects: `v / 100 * 10`. */
  function SliderTime(v: int): (t: real)
    ensures 0 <= v <= 100 ==> 0.0 <= t <= TotalDuration
    ensures v == 0 ==> t == 0.0
    ensures v == 100 ==> t == TotalDuration
  {
    (v as real / 100.0) * TotalDuration
  }

  /** `updateProgress`: the percentage shown by the progress bar and the
      slider, `t / 10 * 100`. */
  function ProgressPercent(t: real): (p: real)
    ensures 0.0 <= t <= TotalDuration ==> 0.0 <= p <= 100.0
    ensures t == TotalDuration ==> p == 100.0
  {
    (t / TotalDuration) * 100.0
  }

  /** The slider and the progress display are inverse mappings. */
  lemma SliderProgressInverse(v: int, t: real)
    ensures ProgressPercent(SliderTime(v)) == v as real
    ensures ProgressPercent(t) == v as real ==> SliderTime(v) == t
  {
  }

  /** Seconds elapsed on the clock between `start` and `now`. */
  function Elapsed(start: real, now: real): (t: real)
    ensures t >= 0.0 <==> now >= start
  {
    (now - start) / MsPerSecond
  }

  /** The start reference `playAnimation` records: `now - t * 1000`, the
      clock reading at which the animation would have been at time 0. */
  function StartReference(now: real, t: real): (start: real)
    ensures Elapsed(start, now) == t
    ensures forall later :: later >= now ==> Elapsed(start, later) >= t
  {
    now - t * MsPerSecond
  }

  /** The time a frame computes, clamped to the total duration. */
  function FrameTime(start: real, now: real): (t: real)
    ensures t <= TotalDuration
    ensures Elapsed(start, now) < TotalDuration ==> t == Elapsed(start, now)
    ensures Elapsed(start, now) >= TotalDuration ==> t == TotalDuration
  {
    var e := Elapsed(start, now);
    if e >= TotalDuration then TotalDuration else e
  }

  /** A frame at the very instant playback starts leaves the time where it was,
      and a later frame never moves it backwards. */
  lemma FrameAtPlayInstant(now: real, later: real, t: real)
    requires t <= TotalDuration
    requires later >= now
    ensures FrameTime(StartReference(now, t), now) == t
    ensures t <= FrameTime(StartReference(now, t), later) <= TotalDuration
  {
  }

  class Player {
    /** The `data-time` of each scene dot. */
    const dotTimes: seq<real>
    /** Whether each scene dot has the `active` class. */
    const dots: array<bool>
    var isPlaying: bool
    /** `animationTime`, in seconds. */
    var time: real
    /** The clock reading at which the running animation was at time 0. */
    var startTime: real
    /** Width of the progress bar and value of the slider, in percent. */
    var progress: real
    var scene: Scene
    /** The latest clock reading given to `Play` or `Frame`. */
    ghost var clock: real

    /** Everything shown agrees with `time`, and while playing `time` is
        the time elapsed since `startTime` at the latest clock reading. */
    ghost predicate Valid()
      reads this, dots
    {
      dots.Length == |dotTimes| &&
      Shows(scene, time) &&
      dots[..] == DotsActive(dotTimes, time) &&
      progress == ProgressPercent(time) &&
      (isPlaying ==> time == Elapsed(startTime, clock))
    }

    /** The time lies on the timeline. */
    ghost predicate InRange()
      reads this
    {
      0.0 <= time <= TotalDuration
    }

    /** `init`: the page starts reset, at time 0 and paused.  Starting
        playback a second later is left to the caller's `Play`. */
    constructor (dotTimes: seq<real>, draws: seq<Draw>)
      ensures Valid() && InRange() && fresh(dots)
      ensures this.dotTimes == dotTimes
      ensures !isPlaying && time == 0.0 && progress == 0.0
      ensures scene == Update(Initial, 0.0, draws)
    {
      this.dotTimes := dotTimes;
      dots := new bool[|dotTimes|];
      isPlaying := false;
      time := 0.0;
      startTime := 0.0;
      progress := 0.0;
      scene := Initial;
      clock := 0.0;
      new;
      Reset(draws);
    }

    /** `updateAnimation` followed by `updateProgress`. */
    method Render(draws: seq<Draw>)
      requires dots.Length == |dotTimes|
      requires isPlaying ==> time == Elapsed(startTime, clock)
      modifies this`scene, this`progress, dots
      ensures Valid()
      ensures scene == Update(old(scene), time, draws)
      ensures progress == ProgressPercent(time)
    {
      scene := Update(scene, time, draws);
      UpdateSceneDots(dots, dotTimes, time);
      progress := ProgressPercent(time);
    }

    /** `playAnimation`: a no-op while playing; otherwise starts playing
        from the current time by recording the start reference. */
    method Play(now: real)
      requires Valid()
      modifies this
      ensures Valid()
      ensures old(isPlaying) ==> unchanged(this)
      ensures !old(isPlaying) ==>
        isPlaying && startTime == StartReference(now, time) && clock == now
      ensures time == old(time) && scene == old(scene) && progress == old(progress)
    {
      if isPlaying {
        return;
      }
      isPlaying := true;
      startTime := now - time * MsPerSecond;
      clock := now;
    }

    /** `updateFrame`: a no-op once paused; otherwise the time is the clock
        time since the start reference, and reaching the end clamps it to
        exactly 10 s and pauses. */
    method Frame(now: real, draws: seq<Draw>)
      requires Valid()
      modifies this, dots
      ensures Valid()
      ensures !old(isPlaying) ==> unchanged(this) && unchanged(dots)
      ensures old(isPlaying) ==>
        time == FrameTime(old(startTime), now) &&
        isPlaying == (Elapsed(old(startTime), now) < TotalDuration) &&
        startTime == old(startTime) && clock == now &&
        scene == Update(old(scene), time, draws)
      ensures old(InRange()) && now >= old(clock) ==> InRange()
    {
      if !isPlaying {
        return;
      }
      clock := now;
      time := (now - startTime) / MsPerSecond;
      if time >= TotalDuration {
        time := TotalDuration;
        Pause();
      }
      Render(draws);
    }

    /** `pauseAnimation`: a no-op unless playing; otherwise stops. */
    method Pause()
      modifies this`isPlaying
      ensures !isPlaying
      ensures !old(isPlaying) ==> unchanged(this)
      ensures old(Valid()) ==> Valid()
    {
      if !isPlaying {
        return;
      }
      isPlaying := false;
    }

    /** `resetAnimation`: pauses and goes back to time 0. */
    method Reset(draws: seq<Draw>)
      requires dots.Length == |dotTimes|
      modifies this, dots
      ensures Valid() && InRange()
      ensures !isPlaying && time == 0.0 && progress == 0.0
      ensures scene == Update(old(scene), 0.0, draws)
      ensures startTime == old(startTime) && clock == old(clock)
    {
      Pause();
      time := 0.0;
      Render(draws);
    }

    /** `replayAnimation`: a reset, then playing from time 0. */
    method Replay(now: real, draws: seq<Draw>)
      requires Valid()
      modifies this, dots
      ensures Valid() && InRange()
      ensures isPlaying && time == 0.0 && startTime == now && clock == now
      ensures scene == Update(old(scene), 0.0, draws)
    {
      Reset(draws);
      Play(now);
    }

    /** The slider's input handler: ignored while playing; otherwise seeks
        to the time the slider value `v` selects. */
    method Slide(v: int, draws: seq<Draw>)
      requires Valid()
      modifies this, dots
      ensures Valid()
      ensures old(isPlaying) ==> unchanged(this) && unchanged(dots)
      ensures !old(isPlaying) ==>
        !isPlaying && time == SliderTime(v) && startTime == old(startTime) &&
        scene == Update(old(scene), time, draws)
      ensures old(InRange()) && 0 <= v <= 100 ==> InRange()
    {
      if !isPlaying {
        time := (v as real / 100.0) * TotalDuration;
        Render(draws);
      }
    }

    /** A scene dot's click handler: a dot past the end is ignored;
        otherwise pauses and seeks to the dot's time, which makes the
        clicked dot active. */
    method ClickDot(i: nat, draws: seq<Draw>)
      requires Valid()
      requires i < |dotTimes|
      modifies this, dots
      ensures Valid()
      ensures dotTimes[i] > TotalDuration ==> unchanged(this) && unchanged(dots)
      ensures dotTimes[i] <= TotalDuration ==>
        !isPlaying && time == dotTimes[i] && startTime == old(startTime) &&
        scene == Update(old(scene), time, draws) && dots[i]
      ensures old(InRange()) && dotTimes[i] >= 0.0 ==> InRange()
    {
      var dotTime := dotTimes[i];
      if dotTime <= TotalDuration {
        if isPlaying {
          Pause();
        }
        time := dotTime;
        Render(draws);
      }
    }
  }

  /** Seeking the slider to 50 gives time 5.0: both Steves have entered,
      the third caption is not yet on and the progress shows 50%. */
  lemma SeekHalfway(s: Scene, draws: seq<Draw>)
    ensures SliderTime(50) == 5.0
    ensures var r := Update(s, SliderTime(50), draws);
      r.goodSteveEntered && r.evilSteveEntered && r.text3 == 0.0 && r.text2 == 0.0
    ensures ProgressPercent(SliderTime(50)) == 50.0
  {
  }
}
