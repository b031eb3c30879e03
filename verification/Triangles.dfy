/** The pixels of the half-plane triangle fill.

    `fillTriangle` tests three edge functions at every point of the bounding box. The main result is that
    the test, degenerate triangles included, accepts exactly the lattice points of the convex hull of the
    three vertices.
 */
module Triangles {
  import opened Pixels
  import opened Lines

  /** Twice the signed area of (a, b, p). */
  function Edge(a: Point, b: Point, p: Point): int {
    (b.x - a.x) * (p.y - a.y) - (b.y - a.y) * (p.x - a.x)
  }

  function Min(a: int, b: int): int { if b < a then b else a }

  function Min3(a: int, b: int, c: int): int { Min(a, Min(b, c)) }

  function Max3(a: int, b: int, c: int): int { Max(a, Max(b, c)) }

  predicate InBox(v0: Point, v1: Point, v2: Point, p: Point) {
    && Min3(v0.x, v1.x, v2.x) <= p.x <= Max3(v0.x, v1.x, v2.x)
    && Min3(v0.y, v1.y, v2.y) <= p.y <= Max3(v0.y, v1.y, v2.y)
  }

  /** The test of the inner loop. */
  predicate SameSide(v0: Point, v1: Point, v2: Point, p: Point) {
    var w0, w1, w2 := Edge(v1, v2, p), Edge(v2, v0, p), Edge(v0, v1, p);
    (w0 >= 0 && w1 >= 0 && w2 >= 0) || (w0 <= 0 && w1 <= 0 && w2 <= 0)
  }

  predicate Filled(v0: Point, v1: Point, v2: Point, p: Point) {
    InBox(v0, v1, v2, p) && SameSide(v0, v1, v2, p)
  }

  // ---- The convex hull ----

  /** p is the average of the vertices under these weights. */
  predicate Balances(v0: Point, v1: Point, v2: Point, p: Point, a: int, b: int, c: int) {
    && a >= 0 && b >= 0 && c >= 0 && a + b + c > 0
    && (a + b + c) * p.x == a * v0.x + b * v1.x + c * v2.x
    && (a + b + c) * p.y == a * v0.y + b * v1.y + c * v2.y
  }

  ghost predicate InHull(v0: Point, v1: Point, v2: Point, p: Point) {
    exists a, b, c :: Balances(v0, v1, v2, p, a, b, c)
  }

  /** The three edge values sum to the triangle's area and weigh the vertices to p. */
  lemma EdgesBalance(v0: Point, v1: Point, v2: Point, p: Point)
    ensures var w0, w1, w2 := Edge(v1, v2, p), Edge(v2, v0, p), Edge(v0, v1, p);
            && w0 + w1 + w2 == Edge(v0, v1, v2)
            && (w0 + w1 + w2) * p.x == w0 * v0.x + w1 * v1.x + w2 * v2.x
            && (w0 + w1 + w2) * p.y == w0 * v0.y + w1 * v1.y + w2 * v2.y
  {
  }

  /** Under weights (a, b, c) each edge value is that share of the area. */
  lemma BalanceShares(v0: Point, v1: Point, v2: Point, p: Point, a: int, b: int, c: int)
    requires Balances(v0, v1, v2, p, a, b, c)
    ensures (a + b + c) * Edge(v1, v2, p) == a * Edge(v0, v1, v2)
    ensures (a + b + c) * Edge(v2, v0, p) == b * Edge(v0, v1, v2)
    ensures (a + b + c) * Edge(v0, v1, p) == c * Edge(v0, v1, v2)
  {
    EdgeShare(v1, v2, v0, p, b, c, a);
    EdgeShare(v2, v0, v1, p, c, a, b);
    EdgeShare(v0, v1, v2, p, a, b, c);
    EdgeRotates(v0, v1, v2);
  }

  lemma EdgeRotates(a: Point, b: Point, c: Point)
    ensures Edge(a, b, c) == Edge(b, c, a) == Edge(c, a, b)
  {
  }

  lemma Distributes(n: int, s: int, t: int)
    ensures n * (s - t) == n * s - n * t
  {
  }

  /** A weighted sum of three coordinates, told from the first. */
  lemma Mixed(u: int, v: int, t: int, a: int, b: int, c: int)
    ensures a * u + b * v + c * t - (a + b + c) * u == b * (v - u) + c * (t - u)
  {
  }

  lemma Scaled(n: int, dx: int, dy: int, px: int, py: int)
    ensures n * (dx * py - dy * px) == dx * (n * py) - dy * (n * px)
  {
  }

  lemma Cancels(dx: int, dy: int, tx: int, ty: int, b: int, c: int)
    ensures dx * (b * dy + c * ty) - dy * (b * dx + c * tx) == c * (dx * ty - dy * tx)
  {
  }

  lemma EdgeShare(u: Point, v: Point, t: Point, p: Point, a: int, b: int, c: int)
    requires (a + b + c) * p.x == a * u.x + b * v.x + c * t.x
    requires (a + b + c) * p.y == a * u.y + b * v.y + c * t.y
    ensures (a + b + c) * Edge(u, v, p) == c * Edge(u, v, t)
  {
    var n, dx, dy := a + b + c, v.x - u.x, v.y - u.y;
    Mixed(u.x, v.x, t.x, a, b, c);
    Mixed(u.y, v.y, t.y, a, b, c);
    Scaled(n, dx, dy, p.x - u.x, p.y - u.y);
    Distributes(n, p.x, u.x);
    Distributes(n, p.y, u.y);
    Cancels(dx, dy, t.x - u.x, t.y - u.y, b, c);
  }

  lemma SignOfShare(n: int, w: int, a: int, area: int)
    requires n > 0 && a >= 0 && n * w == a * area
    ensures area >= 0 ==> w >= 0
    ensures area <= 0 ==> w <= 0
  {
    assert area >= 0 ==> a * area >= 0;
    assert area <= 0 ==> a * area <= 0;
    assert w < 0 ==> n * w < 0;
    assert w > 0 ==> n * w > 0;
  }

  lemma AverageAbove(x: int, a: int, b: int, c: int, x0: int, x1: int, x2: int, lo: int)
    requires a >= 0 && b >= 0 && c >= 0 && a + b + c > 0
    requires (a + b + c) * x == a * x0 + b * x1 + c * x2
    requires lo <= x0 && lo <= x1 && lo <= x2
    ensures lo <= x
  {
    assert a * (x0 - lo) >= 0 && b * (x1 - lo) >= 0 && c * (x2 - lo) >= 0;
    assert (a + b + c) * (x - lo) == a * (x0 - lo) + b * (x1 - lo) + c * (x2 - lo);
    assert x - lo < 0 ==> (a + b + c) * (x - lo) < 0;
  }

  lemma AverageInRange(x: int, a: int, b: int, c: int, x0: int, x1: int, x2: int)
    requires a >= 0 && b >= 0 && c >= 0 && a + b + c > 0
    requires (a + b + c) * x == a * x0 + b * x1 + c * x2
    ensures Min3(x0, x1, x2) <= x <= Max3(x0, x1, x2)
  {
    AverageAbove(x, a, b, c, x0, x1, x2, Min3(x0, x1, x2));
    assert (a + b + c) * -x == a * -x0 + b * -x1 + c * -x2;
    AverageAbove(-x, a, b, c, -x0, -x1, -x2, -Max3(x0, x1, x2));
  }

  lemma HullIsFilled(v0: Point, v1: Point, v2: Point, p: Point, a: int, b: int, c: int)
    requires Balances(v0, v1, v2, p, a, b, c)
    ensures Filled(v0, v1, v2, p)
  {
    var n := a + b + c;
    AverageInRange(p.x, a, b, c, v0.x, v1.x, v2.x);
    AverageInRange(p.y, a, b, c, v0.y, v1.y, v2.y);
    BalanceShares(v0, v1, v2, p, a, b, c);
    SignOfShare(n, Edge(v1, v2, p), a, Edge(v0, v1, v2));
    SignOfShare(n, Edge(v2, v0, p), b, Edge(v0, v1, v2));
    SignOfShare(n, Edge(v0, v1, p), c, Edge(v0, v1, v2));
  }

  /** Two vertices apart in x, with p between them and on their line. */
  lemma SegmentAverage(u: Point, v: Point, p: Point)
    requires u.x < v.x && u.x <= p.x <= v.x && Edge(u, v, p) == 0
    ensures v.x - u.x == (v.x - p.x) + (p.x - u.x)
    ensures (v.x - u.x) * p.x == (v.x - p.x) * u.x + (p.x - u.x) * v.x
    ensures (v.x - u.x) * p.y == (v.x - p.x) * u.y + (p.x - u.x) * v.y
  {
    assert (v.x - u.x) * (p.y - u.y) == (v.y - u.y) * (p.x - u.x);
  }

  function Flip(p: Point): Point { Point(p.y, p.x) }

  /** A triangle of no area: p lies between the extreme vertices along an axis they differ on. */
  lemma FlatIsHull(v0: Point, v1: Point, v2: Point, p: Point)
    requires Filled(v0, v1, v2, p) && Edge(v0, v1, v2) == 0
    ensures InHull(v0, v1, v2, p)
  {
    EdgesBalance(v0, v1, v2, p);
    if v0.x == v1.x == v2.x {
      if v0.y == v1.y == v2.y {
        assert Balances(v0, v1, v2, p, 1, 0, 0);
      } else {
        FlatAlongX(Flip(v0), Flip(v1), Flip(v2), Flip(p));
        var a, b, c :| Balances(Flip(v0), Flip(v1), Flip(v2), Flip(p), a, b, c);
        assert Balances(v0, v1, v2, p, a, b, c);
      }
    } else {
      FlatAlongX(v0, v1, v2, p);
    }
  }

  lemma FlatAlongX(v0: Point, v1: Point, v2: Point, p: Point)
    requires InBox(v0, v1, v2, p) && !(v0.x == v1.x == v2.x)
    requires Edge(v1, v2, p) == 0 && Edge(v2, v0, p) == 0 && Edge(v0, v1, p) == 0
    ensures InHull(v0, v1, v2, p)
  {
    EdgeTurns(v0, v1, p);
    EdgeTurns(v1, v2, p);
    EdgeTurns(v2, v0, p);
    var lo, hi := Min3(v0.x, v1.x, v2.x), Max3(v0.x, v1.x, v2.x);
    var s, t := hi - p.x, p.x - lo;
    if lo == v0.x && hi == v1.x {
      SegmentAverage(v0, v1, p);
      assert Balances(v0, v1, v2, p, s, t, 0);
    } else if lo == v1.x && hi == v0.x {
      SegmentAverage(v1, v0, p);
      assert Balances(v0, v1, v2, p, t, s, 0);
    } else if lo == v1.x && hi == v2.x {
      SegmentAverage(v1, v2, p);
      assert Balances(v0, v1, v2, p, 0, s, t);
    } else if lo == v2.x && hi == v1.x {
      SegmentAverage(v2, v1, p);
      assert Balances(v0, v1, v2, p, 0, t, s);
    } else if lo == v2.x && hi == v0.x {
      SegmentAverage(v2, v0, p);
      assert Balances(v0, v1, v2, p, t, 0, s);
    } else {
      SegmentAverage(v0, v2, p);
      assert Balances(v0, v1, v2, p, s, 0, t);
    }
  }

  lemma EdgeTurns(a: Point, b: Point, p: Point)
    ensures Edge(b, a, p) == -Edge(a, b, p)
  {
  }

  /** The fill accepts exactly the lattice points of the hull, whatever the triangle's shape. */
  lemma FilledIsHull(v0: Point, v1: Point, v2: Point, p: Point)
    ensures Filled(v0, v1, v2, p) <==> InHull(v0, v1, v2, p)
  {
    if a, b, c :| Balances(v0, v1, v2, p, a, b, c) {
      HullIsFilled(v0, v1, v2, p, a, b, c);
    }
    if Filled(v0, v1, v2, p) {
      EdgesBalance(v0, v1, v2, p);
      var w0, w1, w2 := Edge(v1, v2, p), Edge(v2, v0, p), Edge(v0, v1, p);
      if Edge(v0, v1, v2) == 0 {
        FlatIsHull(v0, v1, v2, p);
      } else if w0 >= 0 && w1 >= 0 && w2 >= 0 {
        assert Balances(v0, v1, v2, p, w0, w1, w2);
      } else {
        NegatedBalance(v0, v1, v2, p, w0, w1, w2);
      }
    }
  }

  lemma NegatedBalance(v0: Point, v1: Point, v2: Point, p: Point, a: int, b: int, c: int)
    requires a <= 0 && b <= 0 && c <= 0 && a + b + c < 0
    requires (a + b + c) * p.x == a * v0.x + b * v1.x + c * v2.x
    requires (a + b + c) * p.y == a * v0.y + b * v1.y + c * v2.y
    ensures InHull(v0, v1, v2, p)
  {
    assert Balances(v0, v1, v2, p, -a, -b, -c);
  }

  // ---- What a caller of fillTriangle gets ----

  /** The order in which the vertices are given does not matter: the two generators of the six orders. */
  lemma OrderIrrelevant(v0: Point, v1: Point, v2: Point, p: Point)
    ensures Filled(v0, v1, v2, p) <==> Filled(v1, v2, v0, p)
    ensures Filled(v0, v1, v2, p) <==> Filled(v1, v0, v2, p)
  {
    EdgeTurns(v0, v1, p);
    EdgeTurns(v1, v2, p);
    EdgeTurns(v2, v0, p);
  }

  lemma VerticesFilled(v0: Point, v1: Point, v2: Point)
    ensures Filled(v0, v1, v2, v0) && Filled(v0, v1, v2, v1) && Filled(v0, v1, v2, v2)
  {
    HullIsFilled(v0, v1, v2, v0, 1, 0, 0);
    HullIsFilled(v0, v1, v2, v1, 0, 1, 0);
    HullIsFilled(v0, v1, v2, v2, 0, 0, 1);
  }

  /** The fill has no gaps: any lattice point between two filled points, on a scanline or on any other
      line, is filled. */
  lemma NoGaps(v0: Point, v1: Point, v2: Point, p: Point, q: Point, m: Point, s: int, t: int)
    requires Filled(v0, v1, v2, p) && Filled(v0, v1, v2, q)
    requires s >= 0 && t >= 0 && s + t > 0
    requires (s + t) * m.x == s * p.x + t * q.x && (s + t) * m.y == s * p.y + t * q.y
    ensures Filled(v0, v1, v2, m)
  {
    AverageInRange(m.x, s, t, 0, p.x, q.x, q.x);
    AverageInRange(m.y, s, t, 0, p.y, q.y, q.y);
    EdgesBalance(v0, v1, v2, p);
    EdgesBalance(v0, v1, v2, q);
    EdgeAverages(v0, v1, p, q, m, s, t);
    EdgeAverages(v1, v2, p, q, m, s, t);
    EdgeAverages(v2, v0, p, q, m, s, t);
    SignOfAverage(s, t, Edge(v0, v1, p), Edge(v0, v1, q), Edge(v0, v1, m));
    SignOfAverage(s, t, Edge(v1, v2, p), Edge(v1, v2, q), Edge(v1, v2, m));
    SignOfAverage(s, t, Edge(v2, v0, p), Edge(v2, v0, q), Edge(v2, v0, m));
  }

  lemma EdgeAverages(a: Point, b: Point, p: Point, q: Point, m: Point, s: int, t: int)
    requires (s + t) * m.x == s * p.x + t * q.x && (s + t) * m.y == s * p.y + t * q.y
    ensures (s + t) * Edge(a, b, m) == s * Edge(a, b, p) + t * Edge(a, b, q)
  {
    var dx, dy := b.x - a.x, b.y - a.y;
    assert (s + t) * (m.x - a.x) == s * (p.x - a.x) + t * (q.x - a.x);
    assert (s + t) * (m.y - a.y) == s * (p.y - a.y) + t * (q.y - a.y);
    assert (s + t) * Edge(a, b, m) == dx * ((s + t) * (m.y - a.y)) - dy * ((s + t) * (m.x - a.x));
  }

  lemma SignOfAverage(s: int, t: int, u: int, v: int, m: int)
    requires s >= 0 && t >= 0 && s + t > 0 && (s + t) * m == s * u + t * v
    ensures u >= 0 && v >= 0 ==> m >= 0
    ensures u <= 0 && v <= 0 ==> m <= 0
  {
    assert u >= 0 && v >= 0 ==> s * u >= 0 && t * v >= 0;
    assert u <= 0 && v <= 0 ==> s * u <= 0 && t * v <= 0;
    assert m < 0 ==> (s + t) * m < 0;
    assert m > 0 ==> (s + t) * m > 0;
  }

  lemma SplitRun(y: int, left: int, right: int, x: int, s: int, t: int)
    requires s == right - x && t == x - left
    ensures (s + t) * x == s * left + t * right && (s + t) * y == s * y + t * y
  {
  }

  lemma ScanlineRun(v0: Point, v1: Point, v2: Point, p: Point, q: Point, m: Point)
    requires Filled(v0, v1, v2, p) && Filled(v0, v1, v2, q)
    requires p.y == m.y == q.y && p.x <= m.x <= q.x
    ensures Filled(v0, v1, v2, m)
  {
    if p == q {
      assert m == p;
    } else {
      SplitRun(m.y, p.x, q.x, m.x, q.x - m.x, m.x - p.x);
      NoGaps(v0, v1, v2, p, q, m, q.x - m.x, m.x - p.x);
    }
  }

  // ---- int32 ----

  /** The largest coordinate magnitude for which no edge value overflows int32. */
  const EDGE_LIMIT := 23_170

  predicate EdgeFits(a: Point, b: Point, p: Point) {
    && Int32((b.x - a.x) * (p.y - a.y)) && Int32((b.y - a.y) * (p.x - a.x))
    && Int32(Edge(a, b, p))
  }

  lemma ProductBound(u: int, v: int, limit: int)
    requires -limit <= u <= limit && -limit <= v <= limit
    ensures -(limit * limit) <= u * v <= limit * limit
  {
    assert (limit - u) * (limit + v) >= 0 && (limit + u) * (limit - v) >= 0;
    assert (limit - u) * (limit - v) >= 0 && (limit + u) * (limit + v) >= 0;
    assert (limit - u) * (limit + v) + (limit + u) * (limit - v) == 2 * limit * limit - 2 * (u * v);
    assert (limit - u) * (limit - v) + (limit + u) * (limit + v) == 2 * limit * limit + 2 * (u * v);
  }

  /** A triangle inside a square has at most half its area. */
  lemma EdgeInSquare(x0: int, y0: int, x1: int, y1: int, x2: int, y2: int, side: int)
    requires 0 <= x0 <= side && 0 <= x1 <= side && 0 <= x2 <= side
    requires 0 <= y0 <= side && 0 <= y1 <= side && 0 <= y2 <= side
    ensures -(side * side) <= (x1 - x0) * (y2 - y0) - (y1 - y0) * (x2 - x0) <= side * side
  {
    assert (x1 - x0) * (y2 - y0) - (y1 - y0) * (x2 - x0)
        == x0 * (y1 - y2) + x1 * (y2 - y0) + x2 * (y0 - y1);
    ThreeShares(x0, x1, x2, y1 - y2, y2 - y0, y0 - y1, side);
  }

  lemma ThreeShares(x0: int, x1: int, x2: int, c0: int, c1: int, c2: int, side: int)
    requires 0 <= x0 <= side && 0 <= x1 <= side && 0 <= x2 <= side
    requires Max(0, c0) + Max(0, c1) + Max(0, c2) <= side
    requires -side <= Min(0, c0) + Min(0, c1) + Min(0, c2)
    ensures -(side * side) <= x0 * c0 + x1 * c1 + x2 * c2 <= side * side
  {
    ShareBound(x0, c0, side);
    ShareBound(x1, c1, side);
    ShareBound(x2, c2, side);
    SumsFit(side, Max(0, c0), Max(0, c1), Max(0, c2));
    SumsFit(side, -Min(0, c0), -Min(0, c1), -Min(0, c2));
  }

  lemma SumsFit(side: int, a: int, b: int, c: int)
    requires 0 <= side && a + b + c <= side
    ensures side * a + side * b + side * c <= side * side
    ensures side * -a == -(side * a) && side * -b == -(side * b) && side * -c == -(side * c)
  {
    Distribute(side, a, b, c);
    TimesSide(side, a + b + c);
  }

  lemma TimesSide(side: int, v: int)
    requires 0 <= side && v <= side
    ensures side * v <= side * side
  {
  }

  lemma Distribute(s: int, a: int, b: int, c: int)
    ensures s * (a + b + c) == s * a + s * b + s * c
  {
  }

  lemma ShareBound(x: int, c: int, side: int)
    requires 0 <= x <= side
    ensures side * Min(0, c) <= x * c <= side * Max(0, c)
  {
    assert c >= 0 ==> 0 <= x * c && (side - x) * c >= 0;
    assert c <= 0 ==> 0 >= x * c && (side - x) * c <= 0;
    assert side * c == x * c + (side - x) * c;
  }

  lemma EdgeFitsInt32(a: Point, b: Point, p: Point)
    requires Within(a, EDGE_LIMIT) && Within(b, EDGE_LIMIT) && Within(p, EDGE_LIMIT)
    ensures EdgeFits(a, b, p)
  {
    var l := EDGE_LIMIT;
    ProductBound(b.x - a.x, p.y - a.y, 2 * l);
    ProductBound(b.y - a.y, p.x - a.x, 2 * l);
    EdgeInSquare(a.x + l, a.y + l, b.x + l, b.y + l, p.x + l, p.y + l, 2 * l);
  }

  /** At one more, this triangle's own third vertex overflows. */
  lemma EdgeLimitIsTight()
    ensures var l := EDGE_LIMIT + 1;
            !EdgeFits(Point(-l, -l), Point(l, -l), Point(l, l))
  {
    assert Edge(Point(-23171, -23171), Point(23171, -23171), Point(23171, 23171)) == 46342 * 46342;
  }
}
