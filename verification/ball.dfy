/**
 * The ball's vertical motion (`Ball.jump` and its animation timer).
 * The closure flag `gainingHeight` becomes the `Motion` phase, and one
 * firing of the animation timer becomes one `Step`.
 */
module BallMotion {

  /** Idle: no animation timer is set. Rising / Falling: the timer is set and `gainingHeight` is true / false. */
  datatype Motion = Idle | Rising | Falling

  /** The ball's height above the ground line and its phase. */
  datatype Flight = Flight(height: real, motion: Motion)

  /** The height at which a rising ball turns to fall. */
  const Apex: real := 300.0

  /** No ball ever goes higher than this. */
  const Ceiling: real := 310.0

  /** The amount one timer step adds or takes away: the higher the ball, the slower it moves. */
  function Speed(height: real): real
  {
    20.0 - height / 22.5
  }

  /**
   * One firing of the animation timer. It keeps the flight invariant; a
   * rising ball strictly gains height and turns to fall exactly when it
   * reaches the apex, a falling ball strictly loses height and stops exactly
   * when it is clamped to the ground, and with no timer nothing changes.
   */
  function Advance(f: Flight): (g: Flight)
    ensures Sound(f) ==> Sound(g)
    ensures Sound(f) && f.motion == Rising ==> g.height > f.height && g.motion != Idle && (g.motion == Falling <==> g.height >= Apex)
    ensures Sound(f) && f.motion == Falling ==> g.height < f.height && g.motion != Rising && (g.motion == Idle <==> g.height == 0.0)
    ensures f.motion == Idle ==> g == f
  {
    if f.motion == Idle then f
    else
      var h := if f.motion == Rising then f.height + Speed(f.height) else f.height - Speed(f.height);
      var m := if h >= Apex then Falling else f.motion;
      if h <= 0.0 then Flight(0.0, Idle) else Flight(h, m)
  }

  /** `jump`: a no-op off the ground; on the ground it starts the rise. It keeps the flight invariant. */
  function Launch(f: Flight): (g: Flight)
    ensures f.height != 0.0 ==> g == f
    ensures f.height == 0.0 ==> g.height == 0.0 && g.motion == Rising
    ensures Sound(f) ==> Sound(g)
  {
    if f.height != 0.0 then f else Flight(0.0, Rising)
  }

  /** `stopAnimation`: the timer is cleared, the ball keeps its height and no later firing moves it. */
  function Stop(f: Flight): (g: Flight)
    ensures g.height == f.height && Advance(g) == g
    ensures Sound(f) ==> Sound(g)
  {
    Flight(f.height, Idle)
  }

  /** The invariant every reachable flight keeps. */
  predicate Sound(f: Flight)
  {
    0.0 <= f.height < Ceiling &&
    (f.motion == Rising ==> f.height < Apex) &&
    (f.motion == Falling ==> f.height > 0.0)
  }

  /** `n` firings of the animation timer. */
  function Iterate(f: Flight, n: nat): Flight
    decreases n
  {
    if n == 0 then f else Iterate(Advance(f), n - 1)
  }

  /** An upper bound on the timer steps left before the ball lands. */
  function StepsLeft(f: Flight): int
  {
    match f.motion
    case Idle => 0
    case Falling => (f.height / 6.0).Floor + 1
    case Rising => ((Apex - f.height) / 6.0).Floor + 1 + 52
  }

  /** Every timer step of a moving ball takes at least one from the bound on the steps left. */
  lemma StepsLeftDecrease(f: Flight)
    requires Sound(f) && f.motion != Idle
    ensures 0 <= StepsLeft(Advance(f)) < StepsLeft(f)
  {
    var g := Advance(f);
    if f.motion == Rising {
      assert g.height >= f.height + 6.0;
      if g.motion == Rising {
        assert (Apex - g.height) / 6.0 <= (Apex - f.height) / 6.0 - 1.0;
      } else {
        assert g.height < 307.0;
        assert (g.height / 6.0).Floor <= 51;
      }
    } else {
      assert g.motion == Idle || g.height <= f.height - 6.0;
    }
  }

  /** As long as the animation timer keeps firing, a moving ball is back on the ground within `StepsLeft` firings. */
  lemma {:induction false} Lands(f: Flight, n: nat)
    requires Sound(f) && n >= StepsLeft(f)
    ensures Iterate(f, n) == Flight(Iterate(f, n).height, Idle)
    ensures f.motion != Idle ==> Iterate(f, n).height == 0.0
    decreases n
  {
    if n == 0 {
    } else if f.motion == Idle {
      assert Advance(f) == f;
      Lands(f, n - 1);
    } else {
      StepsLeftDecrease(f);
      var g := Advance(f);
      Lands(g, n - 1);
      if g.motion == Idle {
        assert g.height == 0.0;
        IdleStays(g, n - 1);
      }
    }
  }

  /** An idle ball stays where it is. */
  lemma {:induction false} IdleStays(f: Flight, n: nat)
    requires f.motion == Idle
    ensures Iterate(f, n) == f
  {
    if n > 0 {
      IdleStays(Advance(f), n - 1);
    }
  }

  /** A jump from the ground is over within 103 timer steps. */
  lemma JumpLandsWithin103Steps()
    ensures Iterate(Launch(Flight(0.0, Idle)), 103) == Flight(0.0, Idle)
  {
    assert StepsLeft(Flight(0.0, Rising)) == 103;
    Lands(Flight(0.0, Rising), 103);
  }

  /** The ball of `Ball`; the animation timer is what calls `Step`. */
  class Ball {
    var currentHeight: real
    var motion: Motion

    function State(): Flight
      reads this
    {
      Flight(currentHeight, motion)
    }

    ghost predicate Valid()
      reads this
    {
      Sound(State())
    }

    constructor ()
      ensures Valid() && State() == Flight(0.0, Idle)
    {
      currentHeight := 0.0;
      motion := Idle;
    }

    /** `jump`: ignored in the air; on the ground it sets the animation timer going. */
    method Jump()
      requires Valid()
      modifies this
      ensures Valid()
      ensures State() == Launch(old(State()))
      ensures old(currentHeight) != 0.0 ==> State() == old(State())
    {
      if currentHeight != 0.0 {
        return;
      }
      motion := Rising;
    }

    /** One firing of the animation timer. */
    method Step()
      requires Valid()
      modifies this
      ensures Valid()
      ensures State() == Advance(old(State()))
      ensures old(motion) == Rising ==> currentHeight > old(currentHeight)
      ensures old(motion) == Falling ==> currentHeight < old(currentHeight)
      ensures old(motion) == Idle ==> State() == old(State())
    {
      if motion == Idle {
        return;
      }
      if motion == Rising {
        currentHeight := currentHeight + (20.0 - currentHeight / 22.5);
      } else {
        currentHeight := currentHeight - (20.0 - currentHeight / 22.5);
      }
      if currentHeight >= Apex {
        motion := Falling;
      }
      if currentHeight <= 0.0 {
        currentHeight := 0.0;
        motion := Idle;
      }
    }

    /** `stopAnimation`: clears the timer and leaves the ball where it is. */
    method StopAnimation()
      requires Valid()
      modifies this
      ensures Valid()
      ensures State() == Stop(old(State()))
      ensures currentHeight == old(currentHeight)
    {
      motion := Idle;
    }
  }
}
