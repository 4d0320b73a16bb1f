/** AnimControl: the renderer's playback state for one animation. Frame
    and Step are floats in the program; here they are reals, so rounding is
    not modelled. */
module Playback {
  import opened Streams

  /** Stopped, Paused or Playing. */
  datatype AnimState = Stopped | Paused | Playing

  /** What the control reads of an H3DAnimation: FramesCount and whether its
      AnimationFlags carry IsLooping. */
  datatype H3DAnimation = H3DAnimation(framesCount: real, loopingFlag: bool)

  function Abs(x: real): (r: real)
    ensures r >= 0.0 && (r == x || r == -x)
  {
    if x < 0.0 then -x else x
  }

  /** The frame after Frame += Step wraps once by FramesCount: up when it went
      below zero, down when it reached FramesCount. */
  function Wrap(x: real, n: real): (r: real)
    ensures r == x || r == x + n || r == x - n
    ensures n > 0.0 && -n <= x < 2.0 * n ==> 0.0 <= r < n
    ensures 0.0 <= x < n ==> r == x
  {
    if x < 0.0 then x + n else if x >= n then x - n else x
  }

  /** Advancing by a step no longer than the animation keeps a frame that was
      inside the animation inside it, and one at its end (where a reverse
      start puts it) too. */
  lemma AdvanceStaysInside(frame: real, step: real, n: real)
    requires n >= Abs(step)
    ensures 0.0 <= frame < n ==> 0.0 <= Wrap(frame + step, n) < n
    ensures 0.0 <= frame <= n ==> 0.0 <= Wrap(frame + step, n) <= n
  {
  }

  /** The steps SlowDown and SpeedUp can reach from 1 without Play(Step):
      halving stops below 0.125 and doubling at 8. */
  predicate SpeedInRange(step: real)
  {
    0.0625 < Abs(step) < 16.0
  }

  class AnimControl {
    var frame: real
    var step: real
    var baseAnimation: Option<H3DAnimation>
    var state: AnimState
    var isLooping: bool

    /** HasData: an animation is set. */
    predicate HasData()
      reads this
    {
      baseAnimation.Some?
    }

    /** The frame lies in [0, FramesCount). */
    predicate FrameInside()
      reads this
    {
      baseAnimation.Some? && 0.0 <= frame < baseAnimation.value.framesCount
    }

    /** A new control steps by 1. state0 is the zero value of AnimState, the
        state a new object starts in. */
    constructor (state0: AnimState)
      ensures step == 1.0 && frame == 0.0 && baseAnimation.None? && state == state0 && !isLooping
    {
      step := 1.0;
      frame := 0.0;
      baseAnimation := None;
      state := state0;
      isLooping := false;
    }

    method SetAnimation(a: Option<H3DAnimation>)
      modifies this
      ensures baseAnimation == a && step == old(step)
      ensures a.None? ==> state == Stopped && frame == 0.0 && isLooping == old(isLooping)
      ensures a.Some? ==> isLooping == a.value.loopingFlag
      ensures a.Some? && old(state) == Playing ==>
        state == Playing && frame == (if step < 0.0 then a.value.framesCount else 0.0)
      ensures a.Some? && old(state) != Playing ==> state == Stopped && frame == 0.0
    {
      baseAnimation := a;
      if a.None? {
        Stop();
        return;
      }
      isLooping := a.value.loopingFlag;
      if state == Playing {
        if step < 0.0 {
          frame := a.value.framesCount;
        } else {
          frame := 0.0;
        }
      } else {
        Stop();
      }
    }

    /** Moves Frame by Step while playing an animation at least |Step| long,
        wrapping once by FramesCount. */
    method AdvanceFrame()
      modifies this
      ensures step == old(step) && baseAnimation == old(baseAnimation) && state == old(state) && isLooping == old(isLooping)
      ensures !(old(baseAnimation).Some? && old(baseAnimation).value.framesCount >= Abs(step) && state == Playing) ==>
        frame == old(frame)
      ensures old(baseAnimation).Some? && old(baseAnimation).value.framesCount >= Abs(step) && state == Playing ==>
        frame == Wrap(old(frame) + step, baseAnimation.value.framesCount)
      ensures old(FrameInside()) ==> FrameInside()
    {
      if baseAnimation.Some? && baseAnimation.value.framesCount >= Abs(step) && state == Playing {
        var n := baseAnimation.value.framesCount;
        AdvanceStaysInside(frame, step, n);
        frame := frame + step;
        if frame < 0.0 {
          frame := frame + n;
        } else if frame >= n {
          frame := frame - n;
        }
      }
    }

    /** Halves Step while playing faster than 0.125 frames per tick. */
    method SlowDown()
      modifies this
      ensures frame == old(frame) && baseAnimation == old(baseAnimation) && state == old(state) && isLooping == old(isLooping)
      ensures step == if state == Playing && Abs(old(step)) > 0.125 then old(step) * 0.5 else old(step)
      ensures old(SpeedInRange(step)) ==> SpeedInRange(step)
    {
      if state == Playing && Abs(step) > 0.125 {
        step := step * 0.5;
      }
    }

    /** Doubles Step while playing slower than 8 frames per tick. */
    method SpeedUp()
      modifies this
      ensures frame == old(frame) && baseAnimation == old(baseAnimation) && state == old(state) && isLooping == old(isLooping)
      ensures step == if state == Playing && Abs(old(step)) < 8.0 then old(step) * 2.0 else old(step)
      ensures old(SpeedInRange(step)) ==> SpeedInRange(step)
    {
      if state == Playing && Abs(step) < 8.0 {
        step := step * 2.0;
      }
    }

    /** Play(Step): sets the step, then plays. */
    method PlayAt(s: real)
      modifies this
      ensures step == s && state == Playing
      ensures frame == old(frame) && baseAnimation == old(baseAnimation) && isLooping == old(isLooping)
    {
      step := s;
      Play();
    }

    method Play()
      modifies this
      ensures state == Playing
      ensures frame == old(frame) && step == old(step) && baseAnimation == old(baseAnimation) && isLooping == old(isLooping)
    {
      state := Playing;
    }

    method Pause()
      modifies this
      ensures state == Paused
      ensures frame == old(frame) && step == old(step) && baseAnimation == old(baseAnimation) && isLooping == old(isLooping)
    {
      state := Paused;
    }

    method Stop()
      modifies this
      ensures state == Stopped && frame == 0.0
      ensures step == old(step) && baseAnimation == old(baseAnimation) && isLooping == old(isLooping)
    {
      state := Stopped;
      frame := 0.0;
    }
  }
}
