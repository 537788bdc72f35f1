/**
 * Scene geometry of the runner: axis-aligned rectangles in screen
 * coordinates (x grows to the right, y grows downwards), the fixed layout
 * of the playing area, the rectangles of the ball and of an obstacle, and
 * the collision test of `Main.doesCollide`.
 */
module Scene {

  /** An axis-aligned rectangle as a layout query reports it. */
  datatype Rect = Rect(x: real, y: real, width: real, height: real)

  /**
   * The sizes fixed by the page's style sheet: the ball's left edge and
   * side length, the obstacles' width, and the y coordinate of the ground
   * line that both the ball and the obstacles stand on.
   */
  datatype Layout = Layout(ballLeft: real, ballSize: real, obstacleWidth: real, groundY: real)
  {
    predicate Valid() { ballSize > 0.0 && obstacleWidth > 0.0 }
  }

  /** What the model keeps of one obstacle: its height and its left offset. */
  datatype ObstacleState = ObstacleState(height: real, offsetLeft: real)

  /**
   * The overlap test of `doesCollide`, with `a` the obstacle's rectangle
   * and `b` the ball's: strict on both axes, so two rectangles overlap only
   * if their widths add up to more than 0 and so do their heights.
   */
  function Overlaps(a: Rect, b: Rect): (r: bool)
    ensures r ==> a.width + b.width > 0.0 && a.height + b.height > 0.0
  {
    a.x < b.x + b.width && a.x + a.width > b.x &&
    a.y < b.y + b.height && a.y + a.height > b.y
  }

  /** The obstacle stands on the ground line and grows upwards by its height. */
  function ObstacleRect(layout: Layout, o: ObstacleState): Rect
  {
    Rect(o.offsetLeft, layout.groundY - o.height, layout.obstacleWidth, o.height)
  }

  /** The ball's bottom edge is `height` above the ground line. */
  function BallRect(layout: Layout, height: real): Rect
  {
    Rect(layout.ballLeft, layout.groundY - height - layout.ballSize, layout.ballSize, layout.ballSize)
  }

  /** Does the obstacle `o` overlap a ball whose bottom is `height` above the ground? */
  predicate Hits(layout: Layout, o: ObstacleState, height: real)
  {
    Overlaps(ObstacleRect(layout, o), BallRect(layout, height))
  }

  /**
   * `doesCollide`: `some` over the obstacle array, first element first.
   * True exactly when some obstacle overlaps the ball.
   */
  function Collides(layout: Layout, field: seq<ObstacleState>, height: real): (r: bool)
    ensures r <==> exists i :: 0 <= i < |field| && Hits(layout, field[i], height)
    ensures field == [] ==> !r
  {
    if field == [] then false
    else if Hits(layout, field[0], height) then true
    else
      var r := Collides(layout, field[1..], height);
      assert forall i :: 1 <= i < |field| ==> field[i] == field[1..][i - 1];
      r
  }

  /** The overlap test does not depend on the order of its two rectangles. */
  lemma OverlapsSymmetric(a: Rect, b: Rect)
    ensures Overlaps(a, b) <==> Overlaps(b, a)
  {
  }

  /** Rectangles that only share a vertical or a horizontal edge do not overlap. */
  lemma TouchingDoesNotOverlap(a: Rect, b: Rect)
    requires a.x + a.width == b.x || b.x + b.width == a.x || a.y + a.height == b.y || b.y + b.height == a.y
    ensures !Overlaps(a, b)
  {
  }

  /**
   * With the ball and the obstacle on the same ground line, they collide
   * exactly when they overlap horizontally and the ball's bottom is lower
   * than the obstacle's top.
   */
  lemma HitsIff(layout: Layout, o: ObstacleState, height: real)
    requires layout.Valid() && height >= 0.0
    ensures Hits(layout, o, height) <==>
      (o.offsetLeft < layout.ballLeft + layout.ballSize &&
       o.offsetLeft + layout.obstacleWidth > layout.ballLeft &&
       height < o.height)
  {
  }

  /** A ball at least as high as every obstacle collides with none of them. */
  lemma {:induction false} HighBallClears(layout: Layout, field: seq<ObstacleState>, height: real)
    requires layout.Valid() && height >= 0.0
    requires forall i :: 0 <= i < |field| ==> field[i].height <= height
    ensures !Collides(layout, field, height)
  {
    forall i | 0 <= i < |field|
      ensures !Hits(layout, field[i], height)
    {
      HitsIff(layout, field[i], height);
    }
  }
}
