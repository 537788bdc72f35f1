/**
 * The obstacle field of `Main`: how many obstacles the window holds, how
 * `fullFillObstacles` places new ones, and what one `moveObstacles` sweep
 * does to the array, together with the `Obstacle` objects themselves.
 */
module ObstacleField {
  import opened Scene

  /** `minimumDistance`: the least gap between the left edges of two neighbours. */
  const MinimumDistance: real := 400.0

  /** The largest extra gap a random draw can add. */
  const MaxExtraDistance: real := 300.0

  /** The shortest obstacle and the range a random draw adds to it. */
  const MinHeight: real := 50.0
  const HeightRange: real := 100.0

  /** How far every obstacle scrolls left on one tick. */
  const ScrollStep: real := 7.5

  /** The two `Math.random()` values one new obstacle may use: extra gap first, then height. */
  datatype Draw = Draw(distance: real, height: real)
  {
    predicate Valid() { 0.0 <= distance < 1.0 && 0.0 <= height < 1.0 }
  }

  predicate ValidDraws(draws: seq<Draw>)
  {
    forall i :: 0 <= i < |draws| ==> draws[i].Valid()
  }

  /** `maxObstaclesOnMap` for a window `width` pixels wide: the ceiling of `width / 400`. */
  function Capacity(width: nat): (c: nat)
    ensures (c - 1) * 400 < width <= c * 400
  {
    (width + 399) / 400
  }

  /** How many obstacles a fill appends to an array of `count` obstacles. */
  function Shortfall(count: nat, capacity: nat): nat
  {
    if count < capacity then capacity - count else 0
  }

  /**
   * The obstacle the fill loop appends to `field`: the first one at the
   * window's width, any later one a minimum distance plus a random extra
   * to the right of the current last obstacle.
   */
  function Spawn(field: seq<ObstacleState>, width: nat, d: Draw): (o: ObstacleState)
    ensures |field| == 0 ==> o.offsetLeft == width as real
    ensures d.Valid() ==> MinHeight <= o.height < MinHeight + HeightRange
    ensures |field| > 0 && d.Valid() ==>
      field[|field| - 1].offsetLeft + MinimumDistance <= o.offsetLeft < field[|field| - 1].offsetLeft + MinimumDistance + MaxExtraDistance
  {
    var left :=
      if |field| == 0 then width as real
      else field[|field| - 1].offsetLeft + MinimumDistance + d.distance * MaxExtraDistance;
    ObstacleState(MinHeight + d.height * HeightRange, left)
  }

  /**
   * `fullFillObstacles`: append obstacles, one draw each, until there are
   * `capacity` of them. The array ends up at least `capacity` long, and
   * exactly that long if it was shorter; the obstacles already there are
   * kept and new ones are only appended after them.
   */
  function Filled(field: seq<ObstacleState>, capacity: nat, width: nat, draws: seq<Draw>): (r: seq<ObstacleState>)
    requires |draws| >= Shortfall(|field|, capacity)
    ensures |r| == if |field| < capacity then capacity else |field|
    ensures r[..|field|] == field
    decreases Shortfall(|field|, capacity)
  {
    if |field| >= capacity then field
    else
      var next := field + [Spawn(field, width, draws[0])];
      var r := Filled(next, capacity, width, draws[1..]);
      assert r[..|field|] == r[..|next|][..|field|];
      r
  }

  /** The placement rule every obstacle after `from` obeys relative to its left neighbour. */
  predicate PlacedAfter(field: seq<ObstacleState>, from: nat, width: nat)
  {
    (from == 0 < |field| ==> field[0].offsetLeft == width as real) &&
    (forall i :: from <= i < |field| ==> MinHeight <= field[i].height < MinHeight + HeightRange) &&
    (forall i :: from <= i < |field| && i > 0 ==>
      field[i - 1].offsetLeft + MinimumDistance <= field[i].offsetLeft < field[i - 1].offsetLeft + MinimumDistance + MaxExtraDistance)
  }

  /** Each obstacle a fill appends is the one `Spawn` makes from the obstacles before it and its own draw. */
  lemma {:induction false} FilledAt(field: seq<ObstacleState>, capacity: nat, width: nat, draws: seq<Draw>, i: nat)
    requires |draws| >= Shortfall(|field|, capacity)
    requires |field| <= i < |Filled(field, capacity, width, draws)|
    ensures i - |field| < |draws|
    ensures Filled(field, capacity, width, draws)[i] ==
      Spawn(Filled(field, capacity, width, draws)[..i], width, draws[i - |field|])
    decreases Shortfall(|field|, capacity)
  {
    var next := field + [Spawn(field, width, draws[0])];
    var r := Filled(next, capacity, width, draws[1..]);
    if i == |field| {
      assert r[..i] == next[..i] == field;
      assert r[i] == next[i];
    } else {
      FilledAt(next, capacity, width, draws[1..], i);
    }
  }

  /**
   * The obstacles a fill appends obey the placement rule: the first obstacle
   * of an empty array is at the window's width, every other one is at
   * least 400 and less than 700 to the right of its left neighbour, and
   * every height lies in [50, 150).
   */
  lemma FilledPlacement(field: seq<ObstacleState>, capacity: nat, width: nat, draws: seq<Draw>)
    requires |draws| >= Shortfall(|field|, capacity) && ValidDraws(draws)
    ensures PlacedAfter(Filled(field, capacity, width, draws), |field|, width)
  {
    var r := Filled(field, capacity, width, draws);
    forall i | |field| <= i < |r|
      ensures MinHeight <= r[i].height < MinHeight + HeightRange
      ensures i > 0 ==> r[i - 1].offsetLeft + MinimumDistance <= r[i].offsetLeft < r[i - 1].offsetLeft + MinimumDistance + MaxExtraDistance
      ensures i == 0 ==> r[i].offsetLeft == width as real
    {
      FilledAt(field, capacity, width, draws, i);
      assert draws[i - |field|].Valid();
    }
  }

  /**
   * `move`: the obstacle scrolls left by exactly 7.5 and keeps its height;
   * an obstacle already off the screen stays off it.
   */
  function Moved(o: ObstacleState): (m: ObstacleState)
    ensures m.height == o.height && o.offsetLeft - m.offsetLeft == ScrollStep
    ensures forall layout :: OffScreen(layout, o) ==> OffScreen(layout, m)
  {
    o.(offsetLeft := o.offsetLeft - ScrollStep)
  }

  /**
   * The removal test of `moveObstacles`: the right edge of the obstacle's
   * rectangle is at or left of the window's left edge. Such an obstacle
   * overlaps no ball whose left edge is inside the window.
   */
  function OffScreen(layout: Layout, o: ObstacleState): (r: bool)
    ensures r <==> ObstacleRect(layout, o).x + ObstacleRect(layout, o).width <= 0.0
    ensures r && layout.ballLeft >= 0.0 ==> forall height :: !Hits(layout, o, height)
  {
    o.offsetLeft + layout.obstacleWidth <= 0.0
  }

  /**
   * One `moveObstacles` sweep, in closed form: `forEach` moves the element at
   * the current index and splices it out when it has left the screen; the
   * element that slides into its index is then passed over unmoved.
   */
  function Swept(layout: Layout, field: seq<ObstacleState>): (r: seq<ObstacleState>)
    ensures |r| <= |field| && |field| <= 2 * |r| + 1
  {
    if field == [] then []
    else if OffScreen(layout, Moved(field[0])) then
      if |field| == 1 then [] else [field[1]] + Swept(layout, field[2..])
    else [Moved(field[0])] + Swept(layout, field[1..])
  }

  /**
   * One call of the `forEach` callback at index `k`: the obstacle there
   * moves, and is spliced out when that takes it off the screen; an index
   * past the end of the array is not visited.
   */
  function Visit(layout: Layout, field: seq<ObstacleState>, k: nat): (r: seq<ObstacleState>)
    ensures k >= |field| ==> r == field
    ensures k < |field| ==> |field| - 1 <= |r| <= |field| && r[..k] == field[..k]
  {
    if k >= |field| then field
    else if OffScreen(layout, Moved(field[k])) then field[..k] + field[k + 1..]
    else field[k := Moved(field[k])]
  }

  /** What is left of a sweep once the callbacks for indices below `k` have run: the part before `k` is final. */
  function SweptFrom(layout: Layout, field: seq<ObstacleState>, k: nat): seq<ObstacleState>
  {
    var m := if k < |field| then k else |field|;
    field[..m] + Swept(layout, field[m..])
  }

  /** Visiting index `k` is one step of the sweep. */
  lemma VisitStep(layout: Layout, field: seq<ObstacleState>, k: nat)
    ensures SweptFrom(layout, field, k) == SweptFrom(layout, Visit(layout, field, k), k + 1)
  {
    if k < |field| {
      var rest := field[k..];
      assert rest[0] == field[k];
      var next := Visit(layout, field, k);
      if OffScreen(layout, Moved(field[k])) {
        if k + 1 < |field| {
          assert next[..k + 1] == field[..k] + [rest[1]];
          assert next[k + 1..] == rest[2..];
        } else {
          assert next == field[..k];
        }
      } else {
        assert next[..k + 1] == field[..k] + [Moved(rest[0])];
        assert next[k + 1..] == rest[1..];
      }
    }
  }

  /** Before any callback the rest of the sweep is all of it; past the last index nothing is left to do. */
  lemma SweptFromEnds(layout: Layout, field: seq<ObstacleState>, k: nat)
    ensures SweptFrom(layout, field, 0) == Swept(layout, field)
    ensures k >= |field| ==> SweptFrom(layout, field, k) == field
  {
    assert field[..0] == [] && field[0..] == field;
    assert field[|field|..] == [] && field[..|field|] == field;
  }

  /** The `forEach` callbacks for indices `k` up to `n`, each run on the array the one before left. */
  function VisitsFrom(layout: Layout, field: seq<ObstacleState>, k: nat, n: nat): seq<ObstacleState>
    decreases n - k
  {
    if k >= n then field else VisitsFrom(layout, Visit(layout, field, k), k + 1, n)
  }

  /** Running the callbacks from index `k` on finishes the sweep that the earlier callbacks began. */
  lemma {:induction false} VisitsFromSweep(layout: Layout, field: seq<ObstacleState>, k: nat, n: nat)
    requires |field| <= n
    ensures VisitsFrom(layout, field, k, n) == SweptFrom(layout, field, k)
    decreases n - k
  {
    if k >= n {
      SweptFromEnds(layout, field, k);
    } else {
      VisitStep(layout, field, k);
      VisitsFromSweep(layout, Visit(layout, field, k), k + 1, n);
    }
  }

  /**
   * `forEach` calls the callback once for each index of the array as it was
   * when the sweep began, each call seeing the array the calls before it
   * left; together those calls perform exactly the sweep `Swept`.
   */
  lemma ForEachSweeps(layout: Layout, field: seq<ObstacleState>)
    ensures VisitsFrom(layout, field, 0, |field|) == Swept(layout, field)
  {
    VisitsFromSweep(layout, field, 0, |field|);
    SweptFromEnds(layout, field, 0);
  }

  /** What a sweep does to one obstacle of the array. */
  datatype Fate = Shifted | Skipped | Removed

  /** The fate of each obstacle in one sweep, in array order. */
  function Fates(layout: Layout, field: seq<ObstacleState>): (fates: seq<Fate>)
    ensures |fates| == |field|
  {
    if field == [] then []
    else if OffScreen(layout, Moved(field[0])) then
      if |field| == 1 then [Removed] else [Removed, Skipped] + Fates(layout, field[2..])
    else [Shifted] + Fates(layout, field[1..])
  }

  /**
   * The rule the fates follow: an obstacle right after a removed one is
   * skipped; any other one is removed when moving it takes it off the
   * screen, and shifted otherwise.
   */
  predicate FatesFollowRule(layout: Layout, field: seq<ObstacleState>, fates: seq<Fate>)
  {
    |fates| == |field| &&
    forall i :: 0 <= i < |field| ==>
      fates[i] == if i > 0 && fates[i - 1] == Removed then Skipped
                  else if OffScreen(layout, Moved(field[i])) then Removed
                  else Shifted
  }

  /** The array the fates leave: shifted obstacles moved, skipped ones as they were, removed ones gone, order kept. */
  function Apply(field: seq<ObstacleState>, fates: seq<Fate>): seq<ObstacleState>
    requires |fates| == |field|
  {
    if field == [] then []
    else
      var head := match fates[0]
        case Shifted => [Moved(field[0])]
        case Skipped => [field[0]]
        case Removed => [];
      head + Apply(field[1..], fates[1..])
  }

  /** The number of obstacles with fate `f`. */
  function Count(fates: seq<Fate>, f: Fate): nat
  {
    if fates == [] then 0 else (if fates[0] == f then 1 else 0) + Count(fates[1..], f)
  }

  /** The fates of a sweep follow the rule. */
  lemma {:induction false} FatesRule(layout: Layout, field: seq<ObstacleState>)
    ensures FatesFollowRule(layout, field, Fates(layout, field))
  {
    if field == [] {
    } else if OffScreen(layout, Moved(field[0])) {
      if |field| > 1 {
        var rest := field[2..];
        FatesRule(layout, rest);
        var fs := Fates(layout, field);
        assert fs[2..] == Fates(layout, rest);
        forall i | 2 <= i < |field|
          ensures fs[i] == if fs[i - 1] == Removed then Skipped
                           else if OffScreen(layout, Moved(field[i])) then Removed
                           else Shifted
        {
          assert field[i] == rest[i - 2];
          if i == 2 {
            assert fs[1] == Skipped;
          } else {
            assert fs[i - 1] == Fates(layout, rest)[i - 3];
          }
        }
      }
    } else {
      var rest := field[1..];
      FatesRule(layout, rest);
      var fs := Fates(layout, field);
      forall i | 1 <= i < |field|
        ensures fs[i] == if fs[i - 1] == Removed then Skipped
                         else if OffScreen(layout, Moved(field[i])) then Removed
                         else Shifted
      {
        assert field[i] == rest[i - 1];
        if i == 1 {
          assert fs[0] == Shifted;
        }
      }
    }
  }

  /** The rule at one index. */
  lemma RuleAt(layout: Layout, field: seq<ObstacleState>, fates: seq<Fate>, i: nat)
    requires FatesFollowRule(layout, field, fates) && i < |field|
    ensures fates[i] == if i > 0 && fates[i - 1] == Removed then Skipped
                        else if OffScreen(layout, Moved(field[i])) then Removed
                        else Shifted
  {
  }

  /** The rule pins the fates down: no other assignment of fates follows it. */
  lemma {:induction false} FatesUnique(layout: Layout, field: seq<ObstacleState>, fates: seq<Fate>)
    requires FatesFollowRule(layout, field, fates)
    ensures fates == Fates(layout, field)
  {
    FatesRule(layout, field);
    var fs := Fates(layout, field);
    var i := 0;
    while i < |field|
      invariant 0 <= i <= |field|
      invariant forall j :: 0 <= j < i ==> fates[j] == fs[j]
    {
      RuleAt(layout, field, fates, i);
      RuleAt(layout, field, fs, i);
      assert i > 0 ==> fates[i - 1] == fs[i - 1];
      i := i + 1;
    }
  }

  /** A sweep is the fates applied to the array: every obstacle is moved, left as it was or removed once, in order. */
  lemma {:induction false} SweptApplies(layout: Layout, field: seq<ObstacleState>)
    ensures Swept(layout, field) == Apply(field, Fates(layout, field))
  {
    if field == [] {
    } else if OffScreen(layout, Moved(field[0])) {
      if |field| > 1 {
        SweptApplies(layout, field[2..]);
        var fs := Fates(layout, field);
        assert fs[1..][1..] == Fates(layout, field[2..]);
        assert field[1..][1..] == field[2..];
        assert Apply(field[1..], fs[1..]) == [field[1]] + Apply(field[2..], Fates(layout, field[2..]));
      }
    } else {
      SweptApplies(layout, field[1..]);
      assert Fates(layout, field)[1..] == Fates(layout, field[1..]);
    }
  }

  /** A sweep removes exactly the obstacles whose fate is `Removed`. */
  lemma {:induction false} SweptLength(layout: Layout, field: seq<ObstacleState>)
    ensures |Swept(layout, field)| == |field| - Count(Fates(layout, field), Removed)
  {
    if field == [] {
    } else if OffScreen(layout, Moved(field[0])) {
      if |field| > 1 {
        SweptLength(layout, field[2..]);
        var fs := Fates(layout, field);
        assert fs[1..][1..] == Fates(layout, field[2..]);
      }
    } else {
      SweptLength(layout, field[1..]);
      assert Fates(layout, field)[1..] == Fates(layout, field[1..]);
    }
  }

  /** When no obstacle leaves the screen, every one of them moves left by 7.5 and none is removed. */
  lemma {:induction false} SweptAllOnScreen(layout: Layout, field: seq<ObstacleState>)
    requires forall i :: 0 <= i < |field| ==> !OffScreen(layout, Moved(field[i]))
    ensures Swept(layout, field) == seq(|field|, i requires 0 <= i < |field| => Moved(field[i]))
  {
    if field != [] {
      assert !OffScreen(layout, Moved(field[0]));
      assert forall i :: 0 <= i < |field[1..]| ==> field[1..][i] == field[i + 1];
      SweptAllOnScreen(layout, field[1..]);
    }
  }

  /**
   * The obstacle that follows a removed one is not moved on that tick:
   * with the first two obstacles `a` and `b`, once `a` leaves the screen the
   * sweep starts with `b` exactly where it was.
   */
  lemma SkippedAfterRemoval(layout: Layout, a: ObstacleState, b: ObstacleState, rest: seq<ObstacleState>)
    requires OffScreen(layout, Moved(a))
    ensures Swept(layout, [a, b] + rest)[0] == b
    ensures Fates(layout, [a, b] + rest)[..2] == [Removed, Skipped]
  {
    var field := [a, b] + rest;
    assert field[0] == a && field[1] == b;
  }

  /** The values of an array of obstacles. */
  function States(os: seq<Obstacle>): (s: seq<ObstacleState>)
    reads os
    ensures |s| == |os| && forall i :: 0 <= i < |os| ==> s[i] == os[i].State()
  {
    seq(|os|, i reads os requires 0 <= i < |os| => os[i].State())
  }

  /** An obstacle of the field: its height is fixed when it is made, its left offset scrolls. */
  class Obstacle {
    const height: real
    var offsetLeft: real

    constructor (height: real, offsetLeft: real)
      ensures this.height == height && this.offsetLeft == offsetLeft
    {
      this.height := height;
      this.offsetLeft := offsetLeft;
    }

    function State(): ObstacleState
      reads this
    {
      ObstacleState(height, offsetLeft)
    }

    /** `move`: scroll left by 7.5. */
    method Move()
      modifies this
      ensures State() == Moved(old(State()))
    {
      offsetLeft := offsetLeft - ScrollStep;
    }
  }
}
