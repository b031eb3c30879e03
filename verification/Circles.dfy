/** The pixels of the integer-error circle walker.

    The walk keeps x = -a and visits the arc of one quadrant; each visit plots its four rotations. The
    main result is an exact description of the painted set by one inequality on the squared distance,
    independent of the walk.
 */
module Circles {
  import opened Pixels
  import opened Lines
  import opened RadiusLimit

  /** How far (a, y) is off the circle, in squared distance. */
  function Off(r: int, a: int, y: int): int { a * a + y * y - r * r }

  /** The painted set, relative to the centre: the squared distance misses r * r by less than the larger
      coordinate, with -m included and, on a diagonal, m - 1 excluded. */
  predicate OnRing(r: int, dx: int, dy: int) {
    var m: int := Max(Abs(dx), Abs(dy));
    -m <= Off(r, dx, dy) < (if Abs(dx) == Abs(dy) then m - 1 else m)
  }

  /** The error term of the walk at (a, y): the diagonal neighbour's distance off the circle. */
  function Err(r: int, a: int, y: int): int { Off(r, a - 1, y + 1) }

  // One turn of the loop.

  function NextY(r: int, a: int, y: int): int {
    if Err(r, a, y) <= y then y + 1 else y
  }

  function NextErr(r: int, a: int, y: int): int {
    if Err(r, a, y) <= y then Err(r, a, y) + 2 * (y + 1) + 1 else Err(r, a, y)
  }

  function NextA(r: int, a: int, y: int): int {
    if Err(r, a, y) > -a || NextErr(r, a, y) > NextY(r, a, y) then a - 1 else a
  }

  /** The walk's invariant. */
  predicate Walking(r: int, a: int, y: int) {
    r >= 1 && 0 <= a <= r && 0 <= y <= r && OnRing(r, a, y)
  }

  lemma OffMoves(r: int, a: int, y: int)
    ensures Off(r, a, y + 1) == Off(r, a, y) + 2 * y + 1
    ensures Off(r, a - 1, y) == Off(r, a, y) - 2 * a + 1
    ensures Err(r, a, y) == Off(r, a, y) + 2 * (y - a) + 2
  {
  }

  lemma FartherOut(u: int, v: int)
    requires 0 <= u < v
    ensures v * v - u * u >= v + u
    ensures v * v - u * u >= 2 * v - 1
  {
    var d := v - u;
    SquareGap(u, d);
    assert v == u + d;
  }

  lemma SquareGap(u: int, d: int)
    requires 0 <= u && d >= 1
    ensures (u + d) * (u + d) - u * u >= (u + d) + u
    ensures (u + d) * (u + d) - u * u >= 2 * (u + d) - 1
  {
    var e := d - 1;
    assert (u + d) * (u + d) - u * u == 2 * (u * d) + d * d;
    assert u * d == u * e + u && d * d == d * e + d;
    assert u * e >= 0 && d * e >= e;
  }

  lemma RingStays(r: int, a: int, y: int)
    requires r >= 1 && 0 <= a && 0 <= y && OnRing(r, a, y)
    ensures a <= r && y <= r
  {
    var m := Max(a, y);
    assert Off(r, a, y) >= m * m - r * r;
    if m > r {
      FartherOut(r, m);
      assert false;
    }
  }

  /** Every turn moves to one of the three neighbours further along the quadrant, and stays on the ring. */
  lemma WalkStep(r: int, a: int, y: int)
    requires Walking(r, a, y) && a >= 1
    ensures var a', y' := NextA(r, a, y), NextY(r, a, y);
            && Walking(r, a', y')
            && (a', y') in {(a - 1, y), (a, y + 1), (a - 1, y + 1)}
  {
    var a', y' := NextA(r, a, y), NextY(r, a, y);
    OffMoves(r, a, y);
    OffMoves(r, a - 1, y);
    OffMoves(r, a, y + 1);
    assert OnRing(r, a', y');
    RingStays(r, a', y');
  }

  lemma WalkErr(r: int, a: int, y: int)
    ensures Err(r, NextA(r, a, y), NextY(r, a, y))
         == NextErr(r, a, y) + (if NextA(r, a, y) < a then 2 * (1 - a) + 1 else 0)
  {
    OffMoves(r, a - 1, y + 1);
    OffMoves(r, a - 2, y + 2);
    OffMoves(r, a - 1, y + 2);
  }

  lemma WalkEnds(r: int, y: int)
    requires Walking(r, 0, y)
    ensures y == r
  {
    if y < r {
      FartherOut(y, r);
      assert false;
    }
  }

  /** The quadrant arc from (a, y) until the walk reaches the axis. */
  function Arc(r: int, a: int, y: int): (arc: seq<Point>)
    requires Walking(r, a, y)
    ensures a >= 1 ==> |arc| >= 1 && arc[0] == Point(a, y)
    decreases a + (r - y)
  {
    if a == 0 then [] else
      WalkStep(r, a, y);
      [Point(a, y)] + Arc(r, NextA(r, a, y), NextY(r, a, y))
  }

  function QuadrantArc(r: int): (arc: seq<Point>)
    requires r >= 1
  {
    assert Off(r, r, 0) == 0;
    Arc(r, r, 0)
  }

  /** The walk's state: what is left of the arc, and the error term. A radius below one leaves the
      loop after its first point. */
  ghost predicate CircleState(r: int, x: int, y: int, err: int, visited: seq<Point>) {
    if r < 1 then visited == [] && x == -r && y == 0
    else Walking(r, -x, y) && x < 0 && err == Err(r, -x, y) && QuadrantArc(r) == visited + Arc(r, -x, y)
  }

  lemma CircleStarts(r: int)
    ensures CircleState(r, -r, 0, 2 - 2 * r, [])
  {
    OffMoves(r, r, 0);
    assert Off(r, r, 0) == 0;
  }

  lemma CircleAdvances(r: int, x: int, y: int, err: int, visited: seq<Point>)
    requires CircleState(r, x, y, err, visited)
    ensures var y1 := if err <= y then y + 1 else y;
            var err1 := if err <= y then err + (y1 * 2 + 1) else err;
            var x1 := if err > x || err1 > y1 then x + 1 else x;
            var err2 := if err > x || err1 > y1 then err1 + (x1 * 2 + 1) else err1;
            && (x1 < 0 ==> CircleState(r, x1, y1, err2, visited + [Point(-x, y)]))
            && (x1 < 0 ==> 0 <= -x1 + (r - y1) < -x + (r - y))
            && (x1 >= 0 ==> visited + [Point(-x, y)] == if r >= 1 then QuadrantArc(r) else [Point(r, 0)])
  {
    hide Err, Off, OnRing, NextA, NextY, NextErr;
    if r >= 1 {
      WalkStep(r, -x, y);
      ErrTurns(r, -x, y, err);
      var rest := Arc(r, NextA(r, -x, y), NextY(r, -x, y));
      assert visited + ([Point(-x, y)] + rest) == (visited + [Point(-x, y)]) + rest;
    }
  }

  lemma ErrTurns(r: int, a: int, y: int, err: int)
    requires err == Err(r, a, y)
    ensures var y1 := if err <= y then y + 1 else y;
            var err1 := if err <= y then err + (y1 * 2 + 1) else err;
            var a1 := if err > -a || err1 > y1 then a - 1 else a;
            && y1 == NextY(r, a, y) && a1 == NextA(r, a, y)
            && Err(r, a1, y1) == if a1 < a then err1 + ((1 - a) * 2 + 1) else err1
  {
    WalkErr(r, a, y);
  }

  // ---- Every row and column of the quadrant is visited ----

  lemma ArcMembers(r: int, a: int, y: int, i: nat)
    requires Walking(r, a, y) && i < |Arc(r, a, y)|
    ensures var p := Arc(r, a, y)[i]; p.x >= 1 && p.y >= 0 && OnRing(r, p.x, p.y)
    decreases a + (r - y)
  {
    WalkStep(r, a, y);
    if i > 0 {
      ArcMembers(r, NextA(r, a, y), NextY(r, a, y), i - 1);
    }
  }

  lemma ArcVisitsRow(r: int, a: int, y: int, row: int) returns (i: nat)
    requires Walking(r, a, y) && a >= 1 && y <= row < r
    ensures i < |Arc(r, a, y)| && Arc(r, a, y)[i].y == row
    decreases a + (r - y)
  {
    if y == row {
      i := 0;
    } else {
      WalkStep(r, a, y);
      if NextA(r, a, y) == 0 {
        WalkEnds(r, NextY(r, a, y));
      }
      i := ArcVisitsRow(r, NextA(r, a, y), NextY(r, a, y), row);
      i := i + 1;
    }
  }

  lemma ArcVisitsColumn(r: int, a: int, y: int, column: int) returns (i: nat)
    requires Walking(r, a, y) && 1 <= column <= a
    ensures i < |Arc(r, a, y)| && Arc(r, a, y)[i].x == column
    decreases a + (r - y)
  {
    if a == column {
      i := 0;
    } else {
      WalkStep(r, a, y);
      i := ArcVisitsColumn(r, NextA(r, a, y), NextY(r, a, y), column);
      i := i + 1;
    }
  }

  /** In the octant a >= y, a row of the ring holds one pixel of its quadrant. */
  lemma RowHoldsOne(r: int, a: int, a': int, y: int)
    requires 0 <= y <= a && 1 <= a && 0 <= a'
    requires OnRing(r, a, y) && OnRing(r, a', y)
    ensures a == a'
  {
    if a' < a {
      FartherOut(a', a);
    }
    if a' < y < a {
      FartherOut(y, a);
      FartherOut(a', y);
    }
    if a < a' {
      FartherOut(a, a');
    }
    assert Off(r, a, y) - Off(r, a', y) == a * a - a' * a';
    RowGap(a, a', y, Off(r, a, y), Off(r, a', y));
  }

  lemma RowGap(a: int, a': int, y: int, d: int, d': int)
    requires 0 <= y <= a && 1 <= a && 0 <= a'
    requires -a <= d < (if a == y then a - 1 else a)
    requires -Max(a', y) <= d' < (if a' == y then Max(a', y) - 1 else Max(a', y))
    requires a' < a ==> d - d' >= a + a' && d - d' >= 2 * a - 1
    requires a' < y < a ==> d - d' >= (a + y) + (y + a')
    requires a < a' ==> d' - d >= a + a'
    ensures a == a'
  {
  }

  lemma WalkStarts(r: int)
    requires r >= 1
    ensures Walking(r, r, 0)
  {
    assert Off(r, r, 0) == 0;
  }

  lemma LowOctant(r: int, a: int, y: int)
    requires r >= 1 && 0 <= y <= a && 1 <= a && OnRing(r, a, y)
    ensures Point(a, y) in QuadrantArc(r)
  {
    RingStays(r, a, y);
    assert y < r;
    var i := ArcVisitsRow(r, r, 0, y);
    ArcMembers(r, r, 0, i);
    hide OnRing;
    RowHoldsOne(r, a, QuadrantArc(r)[i].x, y);
  }

  lemma HighOctant(r: int, a: int, y: int)
    requires r >= 1 && 1 <= a < y && OnRing(r, a, y)
    ensures Point(a, y) in QuadrantArc(r)
  {
    RingStays(r, a, y);
    var i := ArcVisitsColumn(r, r, 0, a);
    ArcMembers(r, r, 0, i);
    Mirrored(r, a, y);
    Mirrored(r, a, QuadrantArc(r)[i].y);
    hide OnRing;
    RowHoldsOne(r, y, QuadrantArc(r)[i].y, a);
  }

  lemma Mirrored(r: int, a: int, y: int)
    ensures OnRing(r, a, y) <==> OnRing(r, y, a)
  {
  }

  /** The arc visits exactly the ring pixels of its quadrant. */
  lemma ArcExact(r: int, a: int, y: int)
    requires r >= 1 && a >= 1 && y >= 0
    ensures Point(a, y) in QuadrantArc(r) <==> OnRing(r, a, y)
  {
    hide OnRing;
    WalkStarts(r);
    if i :| 0 <= i < |QuadrantArc(r)| && QuadrantArc(r)[i] == Point(a, y) {
      ArcMembers(r, r, 0, i);
    }
    if OnRing(r, a, y) {
      if y <= a {
        LowOctant(r, a, y);
      } else {
        HighOctant(r, a, y);
      }
    }
  }

  // ---- The closed ring ----

  /** A quarter turn about the centre. */
  function Turn(p: Point): Point { Point(-p.y, p.x) }

  function TurnAll(s: seq<Point>): seq<Point> { seq(|s|, i requires 0 <= i < |s| => Turn(s[i])) }

  /** The four quadrants in order. */
  function Ring(r: int): seq<Point>
    requires r >= 1
  {
    var q0 := QuadrantArc(r);
    var q1 := TurnAll(q0);
    var q2 := TurnAll(q1);
    q0 + q1 + q2 + TurnAll(q2)
  }

  /** Each pixel is a neighbour of the following one, and the last is a neighbour of `next`. */
  ghost predicate Chain(s: seq<Point>, next: Point) {
    forall i :: 0 <= i < |s| ==> Linked(s, next, i)
  }

  predicate Linked(s: seq<Point>, next: Point, i: int)
    requires 0 <= i < |s|
  {
    Reach(s[i], if i + 1 < |s| then s[i + 1] else next) == 1
  }

  lemma ArcConnected(r: int, a: int, y: int)
    requires Walking(r, a, y)
    ensures Chain(Arc(r, a, y), Point(0, r))
    decreases a + (r - y)
  {
    if a > 0 {
      WalkStep(r, a, y);
      var a', y' := NextA(r, a, y), NextY(r, a, y);
      ArcConnected(r, a', y');
      if a' == 0 {
        WalkEnds(r, y');
      }
      var arc, rest := Arc(r, a, y), Arc(r, a', y');
      forall i | 0 <= i < |arc|
        ensures Linked(arc, Point(0, r), i)
      {
        assert i > 0 ==> Linked(rest, Point(0, r), i - 1);
      }
    }
  }

  lemma ChainTurns(s: seq<Point>, next: Point)
    requires Chain(s, next)
    ensures Chain(TurnAll(s), Turn(next))
  {
    forall i | 0 <= i < |s|
      ensures Linked(TurnAll(s), Turn(next), i)
    {
      assert Linked(s, next, i);
    }
  }

  lemma ChainJoins(s: seq<Point>, t: seq<Point>, next: Point)
    requires |t| > 0 && Chain(s, t[0]) && Chain(t, next)
    ensures Chain(s + t, next)
  {
    forall i | 0 <= i < |s + t|
      ensures Linked(s + t, next, i)
    {
      if i < |s| {
        assert Linked(s, t[0], i);
      } else {
        assert Linked(t, next, i - |s|);
      }
    }
  }

  /** Walking the ring pixel by pixel never leaves a gap and comes back to where it started. */
  lemma RingClosed(r: int)
    requires r >= 1
    ensures |Ring(r)| > 0 && Ring(r)[0] == Point(r, 0) && Chain(Ring(r), Ring(r)[0])
  {
    var q0 := QuadrantArc(r);
    var q1 := TurnAll(q0);
    var q2 := TurnAll(q1);
    var q3 := TurnAll(q2);
    ArcConnected(r, r, 0);
    ChainTurns(q0, q1[0]);
    ChainTurns(q1, q2[0]);
    ChainTurns(q2, q3[0]);
    assert Turn(q3[0]) == q0[0];
    ChainJoins(q0, q1, q2[0]);
    ChainJoins(q0 + q1, q2, q3[0]);
    ChainJoins(q0 + q1 + q2, q3, q0[0]);
  }

  /** A radius below one plots the four axis points the walk starts from. */
  predicate CirclePaints(r: int, dx: int, dy: int) {
    if r >= 1 then OnRing(r, dx, dy) else (dx, dy) in {(r, 0), (0, r), (-r, 0), (0, -r)}
  }

  /** The ring visits exactly the pixels the inequality names. */
  lemma RingExact(r: int, p: Point)
    requires r >= 1
    ensures p in Ring(r) <==> OnRing(r, p.x, p.y)
  {
    hide OnRing, TurnAll, QuadrantArc;
    var q0 := QuadrantArc(r);
    var q1 := TurnAll(q0);
    var q2 := TurnAll(q1);
    var back1 := Point(p.y, -p.x);
    var back2 := Point(-p.x, -p.y);
    var back3 := Point(-p.y, p.x);
    TurnMembers(q0, p);
    TurnMembers(q1, p);
    TurnMembers(q0, back1);
    TurnMembers(q2, p);
    TurnMembers(q1, back1);
    TurnMembers(q0, back2);
    assert p in Ring(r) <==> p in q0 || back1 in q0 || back2 in q0 || back3 in q0;
    QuadrantOnly(r, p);
    QuadrantOnly(r, back1);
    QuadrantOnly(r, back2);
    QuadrantOnly(r, back3);
    RingSymmetric(r, p.x, p.y);
    RingSymmetric(r, p.y, -p.x);
    CentreOffRing(r);
  }

  lemma CentreOffRing(r: int)
    requires r >= 1
    ensures !OnRing(r, 0, 0)
  {
    assert r * r > 0;
  }

  /** Every symmetry of the square is a symmetry of the picture. */
  lemma RingSymmetric(r: int, dx: int, dy: int)
    ensures OnRing(r, dx, dy) <==> OnRing(r, dy, dx)
    ensures OnRing(r, dx, dy) <==> OnRing(r, -dx, dy)
    ensures OnRing(r, dx, dy) <==> OnRing(r, -dx, -dy)
    ensures OnRing(r, dx, dy) <==> OnRing(r, -dy, dx)
  {
  }

  lemma TurnMembers(s: seq<Point>, p: Point)
    ensures p in TurnAll(s) <==> Point(p.y, -p.x) in s
  {
    if i :| 0 <= i < |s| && s[i] == Point(p.y, -p.x) {
      assert TurnAll(s)[i] == p;
    }
  }

  lemma QuadrantOnly(r: int, p: Point)
    requires r >= 1
    ensures p in QuadrantArc(r) <==> p.x >= 1 && p.y >= 0 && OnRing(r, p.x, p.y)
  {
    if p.x >= 1 && p.y >= 0 {
      ArcExact(r, p.x, p.y);
    } else if i :| 0 <= i < |QuadrantArc(r)| && QuadrantArc(r)[i] == p {
      ArcMembers(r, r, 0, i);
    }
  }

  /** Every value one turn of the loop computes from one error: the error after the conditional step
      up, the term added by the conditional step across, and their sum when that step is taken. */
  predicate TurnFits(a: int, y: int, err: int) {
    var y1 := if err <= y then y + 1 else y;
    var err1 := if err <= y then err + (2 * (y + 1) + 1) else err;
    && Int32(err) && Int32(2 * (y + 1) + 1) && Int32(err1) && Int32(2 * (1 - a) + 1)
    && (err > -a || err1 > y1 ==> Int32(err1 + (2 * (1 - a) + 1)))
  }

  // Below 715845720 a turn can overflow only in its step up.

  /** How far a point is off the circle, told by its distance from one axis. */
  lemma OffAxis(r: int, u: int, v: int)
    requires r >= 1 && 0 <= u && 0 <= v <= r
    ensures v == r ==> Off(r, u, v) == u * u
    ensures v < r ==> Off(r, u, v) <= u * u - 2 * r + 1
  {
    if v < r {
      FartherOut(v, r);
    }
  }

  /** Near either end of the arc the walk is close to the axis, so the error is far from three radii. */
  lemma ErrFits(r: int, a: int, y: int)
    requires Walking(r, a, y) && a >= 1 && r < ALWAYS_OVERFLOWS
    ensures Int32(Err(r, a, y))
  {
    OffMoves(r, a, y);
    OffAxis(r, a, y);
    OffAxis(r, y, a);
    if a <= 26_755 {
      SquareGrows(a - 1, 26_754);
      assert (a - 1) * (a - 1) == a * a - 2 * a + 1;
    }
    if y <= 26_753 {
      SquareGrows(y, 26_753);
    }
  }

  lemma StepAcrossFits(r: int, a: int, y: int)
    requires Walking(r, a, y) && a >= 1 && r < ALWAYS_OVERFLOWS && Err(r, a, y) <= y
    ensures Err(r, a, y) > -a ==> Err(r, a, y) + (2 * (y + 1) + 1) + (2 * (1 - a) + 1) >= -INT_MAX - 1
  {
    OffMoves(r, a, y);
    OffAxis(r, y, a);
    if y <= 26_750 {
      SquareGrows(y, 26_750);
    }
  }

  lemma BelowTop(r: int, n: int, m: int)
    requires r >= 1 && 0 <= n && m <= r + 1 && Off(r, n, m) <= m - 1
    ensures m <= r
  {
    assert n * n >= 0;
    assert (r + 1) * (r + 1) == r * r + 2 * r + 1;
  }

  lemma OffByRow(r: int, n: int, m: int)
    ensures var j := r - m; Off(r, n, m) == n * n - (2 * (j * r) - j * j)
  {
    var j := r - m;
    assert m * m == r * r - 2 * (j * r) + j * j;
  }

  lemma WindowByErr(r: int, a: int, y: int)
    requires r >= 1 && a >= 1 && 0 <= y <= r
    ensures InWindow(r, r - y - 1, a - 1) <==> Err(r, a, y) <= y && Err(r, a, y) + (2 * (y + 1) + 1) > INT_MAX
  {
    OffByRow(r, a - 1, y + 1);
    if Err(r, a, y) <= y {
      BelowTop(r, a - 1, y + 1);
    }
    hide Off;
  }

  lemma OnlyStepUp(a: int, y: int, err: int)
    requires 1 <= a < ALWAYS_OVERFLOWS && 0 <= y < ALWAYS_OVERFLOWS && Int32(err)
    requires err <= y && err > -a ==> err + (2 * (y + 1) + 1) + (2 * (1 - a) + 1) >= -INT_MAX - 1
    requires a == 1 ==> err < INT_MAX && (err <= y ==> err <= 0)
    ensures TurnFits(a, y, err) <==> !(err <= y && err + (2 * (y + 1) + 1) > INT_MAX)
  {
  }

  /** The column and the row a turn at (a, y) steps to are a - 1 and y + 1: it overflows exactly when the square of
      the one lies in the window of the other. */
  lemma TurnFitsExactly(r: int, a: int, y: int)
    requires Walking(r, a, y) && a >= 1 && r < ALWAYS_OVERFLOWS
    ensures TurnFits(a, y, Err(r, a, y)) <==> !InWindow(r, r - y - 1, a - 1)
  {
    hide Err, OnRing, InWindow;
    ErrFits(r, a, y);
    WindowByErr(r, a, y);
    NearColumn(r, a, y);
    if Err(r, a, y) <= y {
      StepAcrossFits(r, a, y);
    }
    OnlyStepUp(a, y, Err(r, a, y));
  }

  lemma NearColumn(r: int, a: int, y: int)
    requires r >= 1 && 0 <= y <= r
    ensures a == 1 ==> if y < r then Err(r, a, y) <= 0 else Err(r, a, y) == 2 * r + 1
  {
    if y < r {
      OffAxis(r, 0, y + 1);
    }
    assert (r + 1) * (r + 1) == r * r + 2 * r + 1;
  }

  /** Up to the limit no turn of any walk leaves 32 bits. */
  lemma CircleFitsInt32(r: int, a: int, y: int)
    requires Walking(r, a, y) && a >= 1 && r <= RADIUS_LIMIT
    ensures Int32(2 - 2 * r) && TurnFits(a, y, Err(r, a, y))
  {
    hide TurnFits, Err, OnRing;
    TurnFitsExactly(r, a, y);
    if 0 <= r - y - 1 && 715_827_883 <= y + 1 {
      NoSquare(r, r - y - 1, a - 1);
    }
  }

  /** One radius further on, the walk comes to a point whose error overflows when it steps up. */
  lemma CircleLimitIsTight()
    ensures Point(279_331, 715_827_944) in QuadrantArc(RADIUS_LIMIT + 1)
    ensures !TurnFits(279_331, 715_827_944, Err(RADIUS_LIMIT + 1, 279_331, 715_827_944))
  {
    ArcExact(RADIUS_LIMIT + 1, 279_331, 715_827_944);
  }

  /** From here on every radius overflows somewhere on its arc. */
  lemma LargeCirclesOverflow(r: int) returns (a: int)
    requires r >= ALWAYS_OVERFLOWS
    ensures Point(a, r - 1) in QuadrantArc(r) && !TurnFits(a, r - 1, Err(r, a, r - 1))
  {
    var n := SquareRoot(r - 1);
    a := n + 1;
    RootIsSmall(r, n);
    assert a * a == n * n + 2 * n + 1 && (r - 1) * (r - 1) == r * r - 2 * r + 1;
    ArcExact(r, a, r - 1);
  }

  /** A square in a window below makes its point one of the arc. */
  lemma WindowOnRing(r: int, j: int, n: int)
    requires r < ALWAYS_OVERFLOWS && InWindow(r, j, n)
    ensures OnRing(r, n + 1, r - j - 1) && r - j - 1 >= 0
  {
    var m := r - j;
    WindowIsHigh(r, j, n);
    OffByRow(r, n, m);
    OffMoves(r, n + 1, m - 1);
    assert Err(r, n + 1, m - 1) == Off(r, n, m);
  }

  /** Some turn of the walk leaves 32 bits. */
  ghost predicate Overflows(r: int)
    requires r >= 1
  {
    exists a, y :: OverflowsAt(r, a, y)
  }

  predicate OverflowsAt(r: int, a: int, y: int)
    requires r >= 1
  {
    Point(a, y) in QuadrantArc(r) && !TurnFits(a, y, Err(r, a, y))
  }

  /** Exactly when a square lies in one of the windows. */
  lemma OverflowsExactly(r: int)
    requires r >= 1
    ensures Overflows(r) <==> HasSquare(r)
  {
    hide TurnFits, Err, InWindow, OnRing;
    if r >= ALWAYS_OVERFLOWS {
      var a := LargeCirclesOverflow(r);
      assert OverflowsAt(r, a, r - 1);
      TopWindow(r);
    } else {
      if a, y :| OverflowsAt(r, a, y) {
        QuadrantOnly(r, Point(a, y));
        RingStays(r, a, y);
        TurnFitsExactly(r, a, y);
        assert InWindow(r, r - y - 1, a - 1);
      }
      if j, n :| InWindow(r, j, n) {
        WindowOnRing(r, j, n);
        var a, y := n + 1, r - j - 1;
        InWindowSigns(r, j, n);
        ArcExact(r, a, y);
        RingStays(r, a, y);
        TurnFitsExactly(r, a, y);
        assert OverflowsAt(r, a, y);
      }
    }
  }
}
