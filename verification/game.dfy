/**
 * The game session `Main`: the obstacle array, the score, the ball, and
 * whether the game loop's interval is set. Every callback of the browser
 * (a game-loop tick, a key press, a resize) is one method here; the ball's
 * own animation timer is `Ball.Step`, which the browser may interleave with
 * these in any order.
 */
module Game {
  import opened Scene
  import opened ObstacleField
  import opened BallMotion

  /** The score one game-loop tick adds. */
  const ScorePerTick: int := 5

  /** The score at which the player wins, reached on tick 2000 of a game. */
  const WinningScore: int := 10000
  const WinningTick: nat := 2000

  /** The two ways a game ends, each with the text of its end screen. */
  datatype Outcome = GameOver | YouWon
  {
    function Text(): string
    {
      match this
      case GameOver => "Game Over."
      case YouWon => "You Won!"
    }
  }

  /** The key that jumps during a game and starts a new one after it. */
  const Space: string := " "

  class Main {
    /** The sizes the style sheet gives the ball and the obstacles. */
    const layout: Layout
    /** `windowWidth`: the wrapper's width when it was last read. */
    var windowWidth: nat
    var maxObstaclesOnMap: nat
    /** `obstaclesArray`, left to right in the order the obstacles were made. */
    var obstacles: seq<Obstacle>
    var score: int
    var ball: Ball?
    /** Whether `gameLoopInterval` is set. */
    var running: bool
    /** The end screens appended to the wrapper since it was last cleared. */
    var endScreens: seq<Outcome>
    /** Game-loop ticks since the last reset. */
    ghost var ticks: nat

    /** The value of the obstacle array. */
    function Field(): seq<ObstacleState>
      reads this, obstacles
    {
      States(obstacles)
    }

    /** The invariant of a session, whether or not its game loop is running. */
    ghost predicate Consistent()
      reads this, obstacles, ball
    {
      layout.Valid() &&
      maxObstaclesOnMap == Capacity(windowWidth) &&
      (forall i, j :: 0 <= i < j < |obstacles| ==> obstacles[i] != obstacles[j]) &&
      (forall i :: 0 <= i < |obstacles| ==> MinHeight <= obstacles[i].height < MinHeight + HeightRange) &&
      score == ScorePerTick * ticks && ticks <= WinningTick &&
      (ball != null ==> ball.Valid())
    }

    /** A running game has a ball and has not reached the winning tick. */
    ghost predicate Valid()
      reads this, obstacles, ball
    {
      Consistent() && (running ==> ticks < WinningTick && ball != null)
    }

    /** A session for a wrapper `clientWidth` pixels wide; no game has started yet. */
    constructor (layout: Layout, clientWidth: nat)
      requires layout.Valid()
      ensures Valid()
      ensures this.layout == layout && windowWidth == clientWidth
      ensures obstacles == [] && score == 0 && ball == null && !running && endScreens == []
    {
      this.layout := layout;
      windowWidth := clientWidth;
      maxObstaclesOnMap := Capacity(clientWidth);
      obstacles := [];
      score := 0;
      ball := null;
      running := false;
      endScreens := [];
      ticks := 0;
    }

    /** `doesCollide`: some obstacle of the array overlaps the ball. */
    function DoesCollide(): (r: bool)
      reads this, obstacles, ball
      requires ball != null
      ensures r <==> exists i :: 0 <= i < |obstacles| && Hits(layout, obstacles[i].State(), ball.currentHeight)
    {
      var r := Collides(layout, Field(), ball.currentHeight);
      assert forall i :: 0 <= i < |obstacles| ==> Field()[i] == obstacles[i].State();
      r
    }

    /** One firing of the game loop's interval. */
    method GameLoopTick(draws: seq<Draw>)
      requires Valid() && running
      requires |draws| >= Shortfall(|obstacles|, maxObstaclesOnMap) && ValidDraws(draws)
      modifies this, obstacles, ball
      ensures Valid()
      ensures ball == old(ball) && windowWidth == old(windowWidth) && maxObstaclesOnMap == old(maxObstaclesOnMap)
      ensures ball != null
      ensures Field() == Swept(layout, Filled(old(Field()), maxObstaclesOnMap, windowWidth, draws))
      ensures score == old(score) + ScorePerTick && ticks == old(ticks) + 1
      ensures score == WinningScore <==> ticks == WinningTick
      ensures var lost := Collides(layout, Field(), ball.currentHeight);
              var won := score == WinningScore;
              running == !(lost || won) &&
              endScreens == old(endScreens) + (if lost then [GameOver] else []) + (if won then [YouWon] else []) &&
              ball.State() == if lost || won then Stop(old(ball.State())) else old(ball.State())
    {
      ghost var flight := ball.State();
      ghost var screens := endScreens;
      ScrollAndScore(draws);
      ghost var field := Field();
      ghost var lost := Collides(layout, field, flight.height);
      ghost var won := score == WinningScore;
      if DoesCollide() {
        GameEnd(GameOver);
      }
      assert Field() == field && ball.State().height == flight.height;
      assert endScreens == screens + (if lost then [GameOver] else []);
      if score == WinningScore {
        GameEnd(YouWon);
      }
      assert endScreens == screens + (if lost then [GameOver] else []) + (if won then [YouWon] else []);
    }

    /** The first half of a game-loop tick: refill the field, move it and add to the score. */
    method ScrollAndScore(draws: seq<Draw>)
      requires Valid() && running
      requires |draws| >= Shortfall(|obstacles|, maxObstaclesOnMap) && ValidDraws(draws)
      modifies this, obstacles
      ensures Consistent() && running && ball == old(ball)
      ensures windowWidth == old(windowWidth) && maxObstaclesOnMap == old(maxObstaclesOnMap)
      ensures Field() == Swept(layout, Filled(old(Field()), maxObstaclesOnMap, windowWidth, draws))
      ensures score == old(score) + ScorePerTick && ticks == old(ticks) + 1
      ensures endScreens == old(endScreens)
    {
      FullFillObstacles(draws);
      MoveObstacles();
      score := score + ScorePerTick;
      ticks := ticks + 1;
    }

    /** `gameEnd`: clear the game loop's interval, stop the ball and show the end screen. */
    method GameEnd(result: Outcome)
      requires Consistent() && ball != null
      modifies this, ball
      ensures Valid() && ball == old(ball)
      ensures ball.State() == Stop(old(ball.State()))
      ensures !running && endScreens == old(endScreens) + [result]
      ensures obstacles == old(obstacles) && Field() == old(Field()) && score == old(score) && ticks == old(ticks)
      ensures windowWidth == old(windowWidth) && maxObstaclesOnMap == old(maxObstaclesOnMap)
    {
      running := false;
      ball.StopAnimation();
      endScreens := endScreens + [result];
    }

    /** `startGame`: reset, make a new ball, fill the field and set the game loop going. */
    method StartGame(draws: seq<Draw>)
      requires Valid() && !running
      requires |draws| >= maxObstaclesOnMap && ValidDraws(draws)
      modifies this
      ensures Valid() && running
      ensures windowWidth == old(windowWidth) && maxObstaclesOnMap == old(maxObstaclesOnMap)
      ensures score == 0 && ticks == 0 && endScreens == []
      ensures fresh(ball) && ball.State() == Flight(0.0, Idle)
      ensures Field() == Filled([], maxObstaclesOnMap, windowWidth, draws) && PlacedAfter(Field(), 0, windowWidth)
      ensures forall i :: 0 <= i < |obstacles| ==> fresh(obstacles[i])
    {
      ResetToDefault();
      ball := new Ball();
      FullFillObstacles(draws);
      running := true;
    }

    /** `fullFillObstacles`: append new obstacles, one draw each, until the array holds `maxObstaclesOnMap`. */
    method FullFillObstacles(draws: seq<Draw>)
      requires Valid()
      requires |draws| >= Shortfall(|obstacles|, maxObstaclesOnMap) && ValidDraws(draws)
      modifies this
      ensures Valid()
      ensures windowWidth == old(windowWidth) && maxObstaclesOnMap == old(maxObstaclesOnMap)
      ensures Field() == Filled(old(Field()), maxObstaclesOnMap, windowWidth, draws)
      ensures PlacedAfter(Field(), old(|obstacles|), windowWidth)
      ensures |obstacles| >= old(|obstacles|) && obstacles[..old(|obstacles|)] == old(obstacles)
      ensures forall i :: old(|obstacles|) <= i < |obstacles| ==> fresh(obstacles[i])
      ensures score == old(score) && ticks == old(ticks) && ball == old(ball)
      ensures running == old(running) && endScreens == old(endScreens)
    {
      ghost var before := Field();
      var k := 0;
      while |obstacles| < maxObstaclesOnMap
        invariant Valid()
        invariant |obstacles| == old(|obstacles|) + k
        invariant k <= |draws| && |draws| - k >= Shortfall(|obstacles|, maxObstaclesOnMap)
        invariant Filled(Field(), maxObstaclesOnMap, windowWidth, draws[k..]) ==
                  Filled(old(Field()), maxObstaclesOnMap, windowWidth, draws)
        invariant obstacles[..old(|obstacles|)] == old(obstacles)
        invariant forall i :: old(|obstacles|) <= i < |obstacles| ==> fresh(obstacles[i])
        invariant windowWidth == old(windowWidth) && maxObstaclesOnMap == old(maxObstaclesOnMap)
        invariant score == old(score) && ticks == old(ticks) && ball == old(ball)
        invariant running == old(running) && endScreens == old(endScreens)
        decreases maxObstaclesOnMap - |obstacles|
      {
        AppendObstacle(draws[k]);
        assert draws[k..][1..] == draws[k + 1..];
        k := k + 1;
      }
      FilledPlacement(before, maxObstaclesOnMap, windowWidth, draws);
    }

    /** One pass of the fill loop: place a new obstacle after the last one and push it. */
    method AppendObstacle(d: Draw)
      requires Valid() && d.Valid()
      modifies this
      ensures Valid()
      ensures Field() == old(Field()) + [Spawn(old(Field()), windowWidth, d)]
      ensures obstacles[..old(|obstacles|)] == old(obstacles) && |obstacles| == old(|obstacles|) + 1
      ensures fresh(obstacles[old(|obstacles|)])
      ensures windowWidth == old(windowWidth) && maxObstaclesOnMap == old(maxObstaclesOnMap)
      ensures score == old(score) && ticks == old(ticks) && ball == old(ball)
      ensures running == old(running) && endScreens == old(endScreens)
    {
      ghost var before := Field();
      var index := |obstacles|;
      var offsetLeft: real;
      if index - 1 < 0 {
        offsetLeft := windowWidth as real;
      } else {
        offsetLeft := obstacles[index - 1].offsetLeft + MinimumDistance + d.distance * MaxExtraDistance;
      }
      var obstacle := new Obstacle(MinHeight + d.height * HeightRange, offsetLeft);
      obstacles := obstacles + [obstacle];
      assert index > 0 ==> before[index - 1] == obstacles[index - 1].State();
      assert Field() == before + [Spawn(before, windowWidth, d)];
    }

    /** `checkForResize`: on a new wrapper width, recompute the capacity; the obstacles stay. */
    method CheckForResize(clientWidth: nat)
      requires Valid()
      modifies this
      ensures Valid()
      ensures windowWidth == clientWidth
      ensures maxObstaclesOnMap == if clientWidth != old(windowWidth) then Capacity(clientWidth) else old(maxObstaclesOnMap)
      ensures obstacles == old(obstacles) && Field() == old(Field())
      ensures score == old(score) && ticks == old(ticks) && ball == old(ball)
      ensures running == old(running) && endScreens == old(endScreens)
    {
      if clientWidth != windowWidth {
        windowWidth := clientWidth;
        maxObstaclesOnMap := Capacity(windowWidth);
      }
    }

    /**
     * `moveObstacles`: `forEach` over the array as it was when the sweep
     * began, moving the obstacle at each index still in the array and
     * splicing it out once it is off the screen.
     */
    method MoveObstacles()
      requires Valid()
      modifies this, obstacles
      ensures Valid()
      ensures Field() == Swept(layout, old(Field()))
      ensures forall o :: o in obstacles ==> o in old(obstacles)
      ensures windowWidth == old(windowWidth) && maxObstaclesOnMap == old(maxObstaclesOnMap)
      ensures score == old(score) && ticks == old(ticks) && ball == old(ball)
      ensures running == old(running) && endScreens == old(endScreens)
    {
      var n := |obstacles|;
      var k := 0;
      SweptFromEnds(layout, Field(), 0);
      while k < n
        invariant 0 <= k <= n && |obstacles| <= n
        invariant Valid()
        invariant forall o :: o in obstacles ==> o in old(obstacles)
        invariant Swept(layout, old(Field())) == SweptFrom(layout, Field(), k)
        invariant windowWidth == old(windowWidth) && maxObstaclesOnMap == old(maxObstaclesOnMap)
        invariant score == old(score) && ticks == old(ticks) && ball == old(ball)
        invariant running == old(running) && endScreens == old(endScreens)
      {
        VisitStep(layout, Field(), k);
        assert forall i :: 0 <= i < |obstacles| ==> obstacles[i] in old(obstacles);
        VisitObstacle(k);
        k := k + 1;
      }
      SweptFromEnds(layout, Field(), k);
    }

    /** The `forEach` callback of `moveObstacles` for index `k`. */
    method VisitObstacle(k: nat)
      requires Valid()
      modifies obstacles
      modifies this
      ensures Valid()
      ensures Field() == Visit(layout, old(Field()), k)
      ensures forall o :: o in obstacles ==> o in old(obstacles)
      ensures windowWidth == old(windowWidth) && maxObstaclesOnMap == old(maxObstaclesOnMap)
      ensures score == old(score) && ticks == old(ticks) && ball == old(ball)
      ensures running == old(running) && endScreens == old(endScreens)
    {
      ghost var before := Field();
      if k < |obstacles| {
        var obstacle := obstacles[k];
        obstacle.Move();
        assert Field() == before[k := Moved(before[k])];
        if obstacle.offsetLeft + layout.obstacleWidth <= 0.0 {
          RemoveObstacle(k);
          assert Field() == before[..k] + before[k + 1..];
        }
      }
    }

    /** `removeObstacle`: splice one obstacle out of the array. */
    method RemoveObstacle(index: nat)
      requires Valid() && index < |obstacles|
      modifies this
      ensures Valid()
      ensures obstacles == old(obstacles[..index] + obstacles[index + 1..])
      ensures windowWidth == old(windowWidth) && maxObstaclesOnMap == old(maxObstaclesOnMap)
      ensures score == old(score) && ticks == old(ticks) && ball == old(ball)
      ensures running == old(running) && endScreens == old(endScreens)
    {
      obstacles := obstacles[..index] + obstacles[index + 1..];
    }

    /** `resetToDefault`: clear the wrapper, the obstacles, the score, the ball and the loop. */
    method ResetToDefault()
      requires Valid() && !running
      modifies this
      ensures Valid()
      ensures obstacles == [] && score == 0 && ticks == 0 && ball == null && !running && endScreens == []
      ensures windowWidth == old(windowWidth) && maxObstaclesOnMap == old(maxObstaclesOnMap)
    {
      obstacles := [];
      score := 0;
      ticks := 0;
      ball := null;
      running := false;
      endScreens := [];
    }

    /** `keyDownListener`: space makes the ball jump during a game and starts a new game otherwise. */
    method KeyDown(key: string, draws: seq<Draw>)
      requires Valid()
      requires !running && key == Space ==> |draws| >= maxObstaclesOnMap && ValidDraws(draws)
      modifies this, ball
      ensures Valid()
      ensures windowWidth == old(windowWidth) && maxObstaclesOnMap == old(maxObstaclesOnMap)
      ensures key != Space ==> ball == old(ball) && (ball != null ==> ball.State() == old(ball.State()))
      ensures key != Space ==>
        running == old(running) && obstacles == old(obstacles) && Field() == old(Field()) &&
        score == old(score) && ticks == old(ticks) && endScreens == old(endScreens)
      ensures old(running) && key == Space ==>
        running && ball == old(ball) && ball.State() == Launch(old(ball.State())) &&
        obstacles == old(obstacles) && Field() == old(Field()) &&
        score == old(score) && ticks == old(ticks) && endScreens == old(endScreens)
      ensures !old(running) && key == Space ==>
        running && score == 0 && endScreens == [] && fresh(ball) && ball.State() == Flight(0.0, Idle) &&
        Field() == Filled([], maxObstaclesOnMap, windowWidth, draws)
    {
      if running && key == Space {
        ball.Jump();
      } else if !running && key == Space {
        StartGame(draws);
      }
    }

    /** One firing of the ball's animation timer, between two callbacks of the session: the session stays valid. */
    method BallTimer()
      requires Valid() && ball != null
      modifies ball
      ensures Valid()
      ensures ball.State() == Advance(old(ball.State()))
    {
      ball.Step();
    }
  }
}
