/** The per-frame driver of the scene: the star buffer it owns and the
    animation mixer that the model's load callback installs later. The mixer
    is an abstract playback clock; camera controls, rendering and frame
    scheduling are not part of this model. */
module FrameLoop {
  import opened StarField

  /** Time the animation mixer is advanced by on each frame. */
  const MixerStep: real := 0.01

  datatype Option<T> = None | Some(value: T)

  /** The mixer's clock after one frame: advanced by MixerStep once the
      mixer exists, left absent before that. */
  function TickClock(mixer: Option<real>): (m: Option<real>)
    ensures m.Some? <==> mixer.Some?
    ensures mixer.Some? ==> m.value > mixer.value && m.value - mixer.value == MixerStep
  {
    match mixer
    case None => None
    case Some(t) => Some(t + MixerStep)
  }

  /** The mixer's clock after n frames: n * MixerStep further on once it
      exists, still absent otherwise. */
  function TickClockN(mixer: Option<real>, n: nat): Option<real>
  {
    if n == 0 then mixer else TickClock(TickClockN(mixer, n - 1))
  }

  lemma {:induction false} TickClockNAdvances(mixer: Option<real>, n: nat)
    ensures TickClockN(mixer, n).Some? <==> mixer.Some?
    ensures mixer.Some? ==> TickClockN(mixer, n).value == mixer.value + (n as real) * MixerStep
  {
    if n > 0 {
      TickClockNAdvances(mixer, n - 1);
    }
  }

  class Scene {
    /** The star position buffer, x, y, z per star. */
    var stars: array<real>
    /** Playback time of the animation mixer; None until the model has loaded. */
    var mixer: Option<real>

    /** The buffer keeps its size and every coordinate stays in [-Bound, Bound]. */
    ghost predicate Valid()
      reads this, stars
    {
      stars.Length == 3 * StarsCount && InClosedRange(stars[..])
    }

    /** Start-up: the star buffer is filled from the draws; no mixer yet. */
    constructor (draws: seq<real>)
      requires |draws| == 3 * StarsCount && ValidDraws(draws)
      ensures Valid() && fresh(stars)
      ensures stars[..] == InitialPositions(draws)
      ensures InHalfOpenRange(stars[..])
      ensures mixer == None
    {
      var positions := InitPositions(draws);
      stars := positions;
      mixer := None;
    }

    /** The model's load callback: installs a mixer whose clock starts at 0. */
    method LoadSucceeded()
      modifies this`mixer
      ensures mixer == Some(0.0)
    {
      mixer := Some(0.0);
    }

    /** One frame: the star field advances exactly once, then the mixer's
        clock advances by MixerStep if the mixer exists. */
    method Tick()
      requires Valid()
      modifies this`mixer, stars
      ensures Valid()
      ensures stars[..] == Advanced(old(stars[..]))
      ensures mixer == TickClock(old(mixer))
    {
      AdvancedStaysInClosedRange(stars[..]);
      ghost var visited := AnimateStars(stars);
      if mixer.Some? {
        mixer := Some(mixer.value + MixerStep);
      }
    }
  }
}
