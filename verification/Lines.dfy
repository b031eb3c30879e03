/** The pixels of an all-octant Bresenham line, in closed form.

    `drawLine` walks an integer error term. Here the walk is summarised: after k steps each coordinate
    has moved by the ideal amount rounded half up, and everything a caller relies on (both end points,
    8-adjacency, the half-pixel bound, int32 safety) is proved about that closed form.
 */
module Lines {
  import opened Pixels

  function Abs(x: int): nat { if x < 0 then -x else x }

  function Max(a: int, b: int): int { if a < b then b else a }

  function Sign(from: int, to: int): int { if from < to then 1 else -1 }

  /** Steps of the walk: the length of the longer axis. */
  function Steps(p: Point, q: Point): nat { Max(Abs(q.x - p.x), Abs(q.y - p.y)) }

  /** k * m / n rounded half up: how far an axis of length m has moved after k of n steps. */
  function Round(k: int, m: int, n: int): int
    requires n >= 0
  {
    if n == 0 then 0 else (2 * k * m + n) / (2 * n)
  }

  function LinePoint(p: Point, q: Point, k: int): Point {
    Point(p.x + Sign(p.x, q.x) * Round(k, Abs(q.x - p.x), Steps(p, q)),
          p.y + Sign(p.y, q.y) * Round(k, Abs(q.y - p.y), Steps(p, q)))
  }

  function LinePixels(p: Point, q: Point): seq<Point> {
    seq(Steps(p, q) + 1, k => LinePoint(p, q, k))
  }

  // ---- Rounding ----

  lemma RoundBounds(k: int, m: int, n: int)
    requires n > 0
    ensures 2 * n * Round(k, m, n) <= 2 * k * m + n < 2 * n * Round(k, m, n) + 2 * n
  {
  }

  lemma RoundUnique(k: int, m: int, n: int, r: int)
    requires n > 0
    requires 2 * n * r <= 2 * k * m + n < 2 * n * r + 2 * n
    ensures Round(k, m, n) == r
  {
    var s := Round(k, m, n);
    RoundBounds(k, m, n);
    assert s < r ==> 2 * n * (s + 1) <= 2 * n * r;
    assert r < s ==> 2 * n * (r + 1) <= 2 * n * s;
  }

  lemma RoundWhole(k: int, n: int)
    requires n > 0
    ensures Round(k, n, n) == k
  {
    assert 2 * n * k == 2 * k * n;
    RoundUnique(k, n, n, k);
  }

  lemma RoundEnds(m: int, n: int)
    requires 0 <= m <= n && n > 0
    ensures Round(0, m, n) == 0 && Round(n, m, n) == m
  {
    RoundUnique(0, m, n, 0);
    assert 2 * n * m == 2 * m * n;
    RoundUnique(n, m, n, m);
  }

  /** One step moves an axis by zero or one. */
  lemma RoundStep(k: int, m: int, n: int)
    requires 0 <= m <= n && n > 0
    ensures Round(k + 1, m, n) == Round(k, m, n) || Round(k + 1, m, n) == Round(k, m, n) + 1
  {
    var r := Round(k, m, n);
    RoundBounds(k, m, n);
    var v := 2 * (k + 1) * m + n;
    assert v == 2 * k * m + n + 2 * m;
    assert 2 * n * (r + 1) == 2 * n * r + 2 * n;
    if v < 2 * n * r + 2 * n {
      RoundUnique(k + 1, m, n, r);
    } else {
      RoundUnique(k + 1, m, n, r + 1);
    }
  }

  lemma RoundRange(k: int, m: int, n: int)
    requires 0 <= k <= n && 0 <= m <= n && n > 0
    ensures 0 <= Round(k, m, n) <= m
  {
    assert 0 <= k * m <= n * m;
    RoundMonotone(0, k, m, n);
    RoundMonotone(k, n, m, n);
    RoundEnds(m, n);
  }

  lemma Scale(a: int, b: int, c: int)
    requires a <= b && 0 <= c
    ensures a * c <= b * c
  {
  }

  lemma RoundMonotone(k: int, k': int, m: int, n: int)
    requires k <= k' && 0 <= m && n > 0
    ensures Round(k, m, n) <= Round(k', m, n)
  {
    var r, r' := Round(k, m, n), Round(k', m, n);
    RoundBounds(k, m, n);
    RoundBounds(k', m, n);
    Scale(k, k', m);
    assert 2 * k * m == 2 * (k * m) && 2 * k' * m == 2 * (k' * m);
    assert 2 * n * r' + 2 * n == (r' + 1) * (2 * n) && 2 * n * r == r * (2 * n);
    if r' < r {
      Scale(r' + 1, r, 2 * n);
      assert false;
    }
  }

  // ---- The error term ----

  /** The error the walk holds after k steps. */
  function ErrorAt(adx: int, ady: int, n: int, k: int): int
    requires n >= 0
  {
    (Round(k, ady, n) + 1) * adx - (Round(k, adx, n) + 1) * ady
  }

  /** With n the longer axis: its comparison always holds, the other decides the shorter axis. */
  lemma ShorterAxisDecides(k: int, m: int, n: int)
    requires 0 <= m <= n && n > 0
    ensures var e2 := 2 * ((Round(k, m, n) + 1) * n - (k + 1) * m);
            && -m <= e2
            && (e2 <= n <==> Round(k + 1, m, n) == Round(k, m, n) + 1)
  {
    var b := Round(k, m, n);
    var nb, km := n * b, k * m;
    RoundBounds(k, m, n);
    assert 2 * n * b == 2 * nb && 2 * k * m == 2 * km;
    assert 2 * ((b + 1) * n - (k + 1) * m) == 2 * nb + 2 * n - 2 * km - 2 * m;
    assert 2 * (k + 1) * m == 2 * km + 2 * m;
    assert 2 * n * (b + 1) == 2 * nb + 2 * n;
    if 2 * km + 2 * m + n < 2 * nb + 2 * n {
      RoundUnique(k + 1, m, n, b);
    } else {
      RoundUnique(k + 1, m, n, b + 1);
    }
  }

  /** The two comparisons of the loop decide exactly the two rounded axes. */
  lemma StepDecides(adx: int, ady: int, n: int, k: int)
    requires 0 <= adx && 0 <= ady && n == Max(adx, ady) && n > 0
    ensures 2 * ErrorAt(adx, ady, n, k) >= -ady <==> Round(k + 1, adx, n) == Round(k, adx, n) + 1
    ensures 2 * ErrorAt(adx, ady, n, k) <= adx <==> Round(k + 1, ady, n) == Round(k, ady, n) + 1
  {
    RoundWhole(k, n);
    RoundWhole(k + 1, n);
    ShorterAxisDecides(k, if n == adx then ady else adx, n);
  }

  /** The walk's state after k steps. */
  predicate LineState(p: Point, q: Point, k: int, x: int, y: int, err: int) {
    && Point(x, y) == LinePoint(p, q, k)
    && err == ErrorAt(Abs(q.x - p.x), Abs(q.y - p.y), Steps(p, q), k)
  }

  lemma LineStarts(p: Point, q: Point)
    ensures LineState(p, q, 0, p.x, p.y, Abs(q.x - p.x) - Abs(q.y - p.y))
  {
    if Steps(p, q) > 0 {
      RoundEnds(Abs(q.x - p.x), Steps(p, q));
      RoundEnds(Abs(q.y - p.y), Steps(p, q));
    }
  }

  lemma LineAdvances(p: Point, q: Point, k: int, x: int, y: int, err: int)
    requires 0 <= k < Steps(p, q) && LineState(p, q, k, x, y, err)
    ensures var adx: int, ady: int := Abs(q.x - p.x), Abs(q.y - p.y);
            var across, down := 2 * err >= -ady, 2 * err <= adx;
            LineState(p, q, k + 1, if across then x + Sign(p.x, q.x) else x, if down then y + Sign(p.y, q.y) else y,
                      err - (if across then ady else 0) + (if down then adx else 0))
  {
    var adx: int, ady: int, n := Abs(q.x - p.x), Abs(q.y - p.y), Steps(p, q);
    StepDecides(adx, ady, n, k);
    RoundStep(k, adx, n);
    RoundStep(k, ady, n);
    var a, b := Round(k, adx, n), Round(k, ady, n);
    ErrorMoves(adx, ady, a, b, Round(k + 1, adx, n) - a, Round(k + 1, ady, n) - b);
    SignMoves(p.x, Sign(p.x, q.x), a);
    SignMoves(p.y, Sign(p.y, q.y), b);
  }

  lemma ErrorMoves(adx: int, ady: int, a: int, b: int, da: int, db: int)
    requires 0 <= da <= 1 && 0 <= db <= 1
    ensures (b + db + 1) * adx - (a + da + 1) * ady
         == (b + 1) * adx - (a + 1) * ady + (if db == 1 then adx else 0) - (if da == 1 then ady else 0)
  {
  }

  lemma SignMoves(from: int, s: int, a: int)
    ensures from + s * (a + 1) == from + s * a + s
  {
  }

  /** The pixel about to be plotted, and that the loop leaves at the last step and no earlier. */
  lemma LineStops(p: Point, q: Point, k: int, x: int, y: int, err: int)
    requires 0 <= k <= Steps(p, q) && LineState(p, q, k, x, y, err)
    ensures LinePixels(p, q)[..k] + [Point(x, y)] == LinePixels(p, q)[..k + 1]
    ensures Point(x, y) == q <==> k == Steps(p, q)
  {
    if Steps(p, q) > 0 {
      RoundEnds(Abs(q.x - p.x), Steps(p, q));
      RoundEnds(Abs(q.y - p.y), Steps(p, q));
      RoundWhole(k, Steps(p, q));
    }
  }

  // ---- What a caller of drawLine gets ----

  /** Chebyshev distance: 1 exactly for the eight neighbours. */
  function Reach(p: Point, q: Point): nat { Max(Abs(q.x - p.x), Abs(q.y - p.y)) }

  lemma LineEnds(p: Point, q: Point)
    ensures |LinePixels(p, q)| == Steps(p, q) + 1
    ensures LinePixels(p, q)[0] == p && LinePixels(p, q)[Steps(p, q)] == q
  {
    if Steps(p, q) > 0 {
      RoundEnds(Abs(q.x - p.x), Steps(p, q));
      RoundEnds(Abs(q.y - p.y), Steps(p, q));
    }
  }

  lemma LineConnected(p: Point, q: Point, k: nat)
    requires k < Steps(p, q)
    ensures Reach(LinePixels(p, q)[k], LinePixels(p, q)[k + 1]) == 1
  {
    var n := Steps(p, q);
    RoundStep(k, Abs(q.x - p.x), n);
    RoundStep(k, Abs(q.y - p.y), n);
    RoundWhole(k, n);
    RoundWhole(k + 1, n);
  }

  /** Every pixel stays in the bounding box and within half a pixel of the ideal line, measured along
      the shorter axis: the cross product with the direction, over n, is at most a half. */
  lemma LineAccuracy(p: Point, q: Point, k: nat)
    requires k <= Steps(p, q)
    ensures var r := LinePixels(p, q)[k];
            && (p.x <= r.x <= q.x || q.x <= r.x <= p.x)
            && (p.y <= r.y <= q.y || q.y <= r.y <= p.y)
            && 2 * Abs((r.x - p.x) * (q.y - p.y) - (r.y - p.y) * (q.x - p.x)) <= Steps(p, q)
  {
    var n := Steps(p, q);
    if n > 0 {
      var adx, ady := Abs(q.x - p.x), Abs(q.y - p.y);
      RoundRange(k, adx, n);
      RoundRange(k, ady, n);
      var a, b := Round(k, adx, n), Round(k, ady, n);
      var r := LinePoint(p, q, k);
      SignedCross(Sign(p.x, q.x), Sign(p.y, q.y), a, b, adx, ady);
      assert (r.x - p.x) == Sign(p.x, q.x) * a && (r.y - p.y) == Sign(p.y, q.y) * b;
      assert q.x - p.x == Sign(p.x, q.x) * adx && q.y - p.y == Sign(p.y, q.y) * ady;
      CrossBound(k, adx, ady, n);
    }
  }

  lemma SignedCross(sx: int, sy: int, a: int, b: int, adx: int, ady: int)
    requires sx == 1 || sx == -1
    requires sy == 1 || sy == -1
    ensures Abs((sx * a) * (sy * ady) - (sy * b) * (sx * adx)) == Abs(a * ady - b * adx)
  {
    assert (sx * a) * (sy * ady) - (sy * b) * (sx * adx) == (sx * sy) * (a * ady - b * adx) by {
      assert (sx * a) * (sy * ady) == (sx * sy) * (a * ady);
      assert (sy * b) * (sx * adx) == (sx * sy) * (b * adx);
    }
  }

  lemma CrossBound(k: int, adx: int, ady: int, n: int)
    requires 0 <= adx && 0 <= ady && n == Max(adx, ady) && n > 0
    ensures 2 * Abs(Round(k, adx, n) * ady - Round(k, ady, n) * adx) <= n
  {
    RoundWhole(k, n);
    var m := if n == adx then ady else adx;
    var r := Round(k, m, n);
    RoundBounds(k, m, n);
    assert 2 * n * r == 2 * (r * n) && 2 * k * m == 2 * (k * m);
  }

  /** One pixel per step of the longer axis. */
  lemma LongerAxisUnique(p: Point, q: Point, k: nat)
    requires k <= Steps(p, q)
    ensures var r := LinePixels(p, q)[k];
            if Steps(p, q) == Abs(q.x - p.x) then Abs(r.x - p.x) == k else Abs(r.y - p.y) == k
  {
    if Steps(p, q) > 0 {
      RoundWhole(k, Steps(p, q));
    }
  }

  // ---- Drawing the line from its other end ----

  /** Step k passes exactly half way between two pixels. */
  predicate Tie(p: Point, q: Point, k: int) {
    var n := Steps(p, q);
    var m := if n == Abs(q.x - p.x) then Abs(q.y - p.y) else Abs(q.x - p.x);
    n > 0 && (2 * k * m + n) % (2 * n) == 0
  }

  lemma RoundReversed(k: int, m: int, n: int)
    requires n > 0
    ensures Round(n - k, m, n) == m - Round(k, m, n) + (if (2 * k * m + n) % (2 * n) == 0 then 1 else 0)
  {
    var r := Round(k, m, n);
    var t := if (2 * k * m + n) % (2 * n) == 0 then 1 else 0;
    RoundBounds(k, m, n);
    DivMod(2 * k * m + n, 2 * n);
    assert 2 * (n - k) * m == 2 * n * m - 2 * k * m;
    assert 2 * n * (m - r + t) == 2 * n * m - 2 * n * r + 2 * n * t;
    RoundUnique(n - k, m, n, m - r + t);
  }

  lemma DivMod(v: int, d: int)
    requires d > 0
    ensures v == d * (v / d) + v % d && 0 <= v % d < d
  {
  }

  lemma AxisReversed(u: int, v: int, k: int, n: int)
    requires 0 <= k <= n && Abs(v - u) <= n && n > 0
    ensures v + Sign(v, u) * Round(n - k, Abs(v - u), n) == u + Sign(u, v) * Round(k, Abs(v - u), n)
       <==> (2 * k * Abs(v - u) + n) % (2 * n) != 0
  {
    var m := Abs(v - u);
    RoundReversed(k, m, n);
    RoundRange(k, m, n);
    RoundRange(n - k, m, n);
    assert Sign(u, v) * m == v - u;
    if m == 0 {
      assert 2 * k * m + n == n;
      assert n % (2 * n) == n;
    } else {
      assert Sign(v, u) == -Sign(u, v);
    }
  }

  lemma ReversedPoint(p: Point, q: Point, k: int)
    requires Steps(p, q) > 0 && 0 <= k <= Steps(p, q)
    ensures LinePoint(q, p, Steps(p, q) - k) == LinePoint(p, q, k) <==> !Tie(p, q, k)
  {
    var n := Steps(p, q);
    AxisReversed(p.x, q.x, k, n);
    AxisReversed(p.y, q.y, k, n);
    WholeNoTie(k, n);
  }

  lemma WholeNoTie(k: int, n: int)
    requires n > 0
    ensures (2 * k * n + n) % (2 * n) != 0
  {
    RoundWhole(k, n);
    DivMod(2 * k * n + n, 2 * n);
    assert 2 * n * k == 2 * k * n;
  }

  /** A line and the same line drawn from its other end paint the same pixels exactly when no step
      falls half way: ties always round away from the start. */
  lemma ReversalPaintsSame(p: Point, q: Point)
    ensures (forall r :: r in LinePixels(p, q) <==> r in LinePixels(q, p))
       <==> (forall k :: 0 <= k <= Steps(p, q) ==> !Tie(p, q, k))
  {
    var n := Steps(p, q);
    if n > 0 {
      if forall k :: 0 <= k <= n ==> !Tie(p, q, k) {
        forall r
          ensures r in LinePixels(p, q) <==> r in LinePixels(q, p)
        {
          if k :| 0 <= k <= n && r == LinePixels(p, q)[k] {
            ReversedPoint(p, q, k);
            assert LinePixels(q, p)[n - k] == r;
          }
          if j :| 0 <= j <= n && r == LinePixels(q, p)[j] {
            ReversedPoint(p, q, n - j);
            assert LinePixels(p, q)[n - j] == r;
          }
        }
      } else {
        var k :| 0 <= k <= n && Tie(p, q, k);
        TieSeparates(p, q, k);
      }
    }
  }

  lemma TieSeparates(p: Point, q: Point, k: int)
    requires Steps(p, q) > 0 && 0 <= k <= Steps(p, q) && Tie(p, q, k)
    ensures exists r :: r in LinePixels(q, p) && r !in LinePixels(p, q)
  {
    hide LinePoint, Tie;
    var n := Steps(p, q);
    var r := LinePixels(q, p)[n - k];
    assert r in LinePixels(q, p);
    ReversedPoint(p, q, k);
    forall j | 0 <= j <= n
      ensures LinePixels(p, q)[j] != r
    {
      if j != k {
        OtherStepElsewhere(p, q, j, k);
      }
    }
  }

  /** Different steps from the two ends never meet on one pixel: the longer axis tells them apart. */
  lemma OtherStepElsewhere(p: Point, q: Point, j: int, k: int)
    requires Steps(p, q) > 0 && 0 <= j <= Steps(p, q) && 0 <= k <= Steps(p, q) && j != k
    ensures LinePixels(p, q)[j] != LinePixels(q, p)[Steps(p, q) - k]
  {
    hide LinePoint;
    LongerAxisUnique(q, p, Steps(p, q) - k);
    LineAccuracy(q, p, Steps(p, q) - k);
    LongerAxisUnique(p, q, j);
    LineAccuracy(p, q, j);
  }

  // ---- int32 ----

  predicate Int32(v: int) { -0x8000_0000 <= v < 0x8000_0000 }

  /** Every value the loop computes from one error: the axes, the error, its double, and the error
      after each of the two conditional additions. */
  predicate StepFits(p: Point, q: Point, err: int) {
    var adx: int, ady: int := Abs(q.x - p.x), Abs(q.y - p.y);
    var err1 := if 2 * err >= -ady then err - ady else err;
    var err2 := if 2 * err <= adx then err1 + adx else err1;
    && Int32(q.x - p.x) && Int32(q.y - p.y) && Int32(adx) && Int32(-ady) && Int32(adx - ady)
    && Int32(err) && Int32(2 * err) && Int32(err1) && Int32(err2)
  }

  predicate WalkFits(p: Point, q: Point, k: int) {
    && StepFits(p, q, ErrorAt(Abs(q.x - p.x), Abs(q.y - p.y), Steps(p, q), k))
    && Int32(LinePoint(p, q, k).x) && Int32(LinePoint(p, q, k).y)
  }

  predicate Within(p: Point, limit: int) { Abs(p.x) <= limit && Abs(p.y) <= limit }

  /** The largest coordinate magnitude for which no line overflows int32. */
  const LINE_LIMIT := 357_913_941

  lemma LineFitsInt32(p: Point, q: Point, k: nat)
    requires Within(p, LINE_LIMIT) && Within(q, LINE_LIMIT) && k <= Steps(p, q)
    ensures WalkFits(p, q, k)
  {
    var n := Steps(p, q);
    LineAccuracy(p, q, k);
    if n > 0 {
      ErrorRange(Abs(q.x - p.x), Abs(q.y - p.y), n, k);
    }
    ErrorFits(p, q, ErrorAt(Abs(q.x - p.x), Abs(q.y - p.y), n, k));
  }

  lemma ErrorFits(p: Point, q: Point, err: int)
    requires Within(p, LINE_LIMIT) && Within(q, LINE_LIMIT)
    requires -3 * Steps(p, q) <= 2 * err <= 3 * Steps(p, q)
    ensures StepFits(p, q, err)
  {
  }

  lemma ErrorRange(adx: int, ady: int, n: int, k: int)
    requires 0 <= adx && 0 <= ady && n == Max(adx, ady) && n > 0
    ensures -3 * n <= 2 * ErrorAt(adx, ady, n, k) <= 3 * n
  {
    var m := if n == adx then ady else adx;
    RoundWhole(k, n);
    RoundBounds(k, m, n);
    var b := Round(k, m, n);
    var nb, km := n * b, k * m;
    assert 2 * n * b == 2 * nb && 2 * k * m == 2 * km;
    assert (b + 1) * n == nb + n && (k + 1) * m == km + m;
  }

  /** One more, and the doubled error of this line overflows half way along. */
  lemma LineLimitIsTight()
    ensures var p, q := Point(-LINE_LIMIT - 1, 0), Point(LINE_LIMIT + 1, 1);
            0 <= LINE_LIMIT + 1 <= Steps(p, q) && !WalkFits(p, q, LINE_LIMIT + 1)
  {
    var k := LINE_LIMIT + 1;
    assert 2 * ErrorAt(2 * k, 1, 2 * k, k) == 6 * k - 2;
    assert !Int32(6 * k - 2);
  }
}
