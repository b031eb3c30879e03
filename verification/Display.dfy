/** The framebuffer and the TFT_eSPI display and sprite objects that draw on it.

    Each drawing method is proved to overlay one layer on its target and to touch no other buffer. What
    those layers are worth to a caller is proved in `Lines`, `Circles`, `Triangles` and `Images`.
 */
module Display {
  import opened Pixels
  import opened Lines
  import opened Circles
  import opened Triangles
  import opened Images

  class Framebuffer {
    var w: nat
    var h: nat
    var px: seq<Color>

    ghost predicate Valid()
      reads this
    {
      Buffer().Valid()
    }

    function Buffer(): Canvas
      reads this
    {
      Canvas(w, h, px)
    }

    constructor ()
      ensures Valid() && w == 0 && h == 0
    {
      w, h, px := 0, 0, [];
    }

    method Init(width: nat, height: nat)
      modifies this
      ensures Valid() && w == width && h == height
      ensures forall x, y :: Buffer().At(x, y) == 0
    {
      w, h := width, height;
      px := seq(width * height, _ => 0);
      forall x, y
        ensures Buffer().At(x, y) == 0
      {
        if Buffer().Inside(x, y) {
          IndexInside(w, h, x, y);
        }
      }
    }

    method Fill(color: Color)
      requires Valid()
      modifies this`px
      ensures Valid()
      ensures forall x, y :: Buffer().At(x, y) == if Buffer().Inside(x, y) then color else 0
    {
      var i := 0;
      while i < |px|
        invariant 0 <= i <= |px| == |old(px)|
        invariant forall j :: 0 <= j < i ==> px[j] == color
      {
        px := px[i := color];
        i := i + 1;
      }
      forall x, y | Buffer().Inside(x, y)
        ensures Buffer().At(x, y) == color
      {
        IndexInside(w, h, x, y);
      }
    }

    method Pixel(x: int, y: int) returns (c: Color)
      requires Valid()
      ensures c == Buffer().At(x, y)
    {
      if x < 0 || y < 0 || x >= w || y >= h {
        return 0;
      }
      IndexInside(w, h, x, y);
      c := px[y * w + x];
    }

    /** A clipped copy of a bw by bh image. Rows and cells off the buffer are skipped, not wrapped. */
    method Blit(x: int, y: int, bw: int, bh: int, image: seq<Color>)
      requires Valid()
      requires bw > 0 && bh > 0 ==> |image| >= bw * bh
      modifies this`px
      ensures Valid()
      ensures Overlaid(Sprite(old(Buffer())), Sprite(Buffer()), StreamLayer(Window(x, y, bw, bh), 0, image))
    {
      hide Overlaid, StreamAt;
      var win := Window(x, y, bw, bh);
      ghost var start := Sprite(Buffer());
      StreamStarts(start, win, 0, image);
      if bw <= 0 || bh <= 0 {
        return;
      }
      var row := 0;
      while row < bh
        invariant 0 <= row <= bh && 0 <= row * bw <= |image|
        invariant Valid() && Sprite(Buffer()).SameFrame(start)
        invariant Overlaid(start, Sprite(Buffer()), StreamLayer(win, 0, image[..row * bw]))
      {
        var py := y + row;
        NextRowInside(row, bw, bh);
        if 0 <= py < h {
          var col := 0;
          while col < bw
            invariant 0 <= col <= bw
            invariant Valid() && Sprite(Buffer()).SameFrame(start)
            invariant Overlaid(start, Sprite(Buffer()), StreamLayer(win, 0, image[..row * bw + col]))
          {
            var pxc := x + col;
            StreamPlots(start, Sprite(Buffer()), win, 0, image, row * bw + col, col, row);
            if 0 <= pxc < w {
              IndexInside(w, h, pxc, py);
              px := px[py * w + pxc := image[row * bw + col]];
            }
            col := col + 1;
          }
        } else {
          HiddenRow(start, Sprite(Buffer()), win, image, row);
        }
        row := row + 1;
      }
      FullImage(win, image);
      OverlaySame(start, Sprite(Buffer()), StreamLayer(win, 0, image[..bh * bw]), StreamLayer(win, 0, image));
    }
  }

  lemma NextRowInside(row: int, w: int, h: int)
    requires 0 <= row < h && w > 0
    ensures 0 <= row * w && row * w + w == (row + 1) * w <= w * h
  {
  }

  /** Pixels past the last row are never part of the window. */
  lemma FullImage(win: Window, image: seq<Color>)
    requires win.w > 0 && win.h > 0 && |image| >= win.w * win.h
    ensures forall px, py ::
              StreamLayer(win, 0, image)(px, py) == StreamLayer(win, 0, image[..win.h * win.w])(px, py)
  {
    forall px, py
      ensures StreamAt(win, 0, image, px, py) == StreamAt(win, 0, image[..win.h * win.w], px, py)
    {
      if 0 <= px - win.x < win.w && 0 <= py - win.y < win.h {
        IndexInside(win.w, win.h, px - win.x, py - win.y);
      }
    }
  }

  /** A row the surface does not show can be skipped. */
  lemma HiddenRow(d: Device, mid: Device, win: Window, image: seq<Color>, row: nat)
    requires win.w > 0 && row < win.h && 0 <= row * win.w && (row + 1) * win.w <= |image|
    requires forall px, py :: py == win.y + row ==> !d.Shows(px, py)
    requires Overlaid(d, mid, StreamLayer(win, 0, image[..row * win.w]))
    ensures Overlaid(d, mid, StreamLayer(win, 0, image[..(row + 1) * win.w]))
  {
    var before, after := image[..row * win.w], image[..(row + 1) * win.w];
    forall x, y
      ensures mid.View(x, y) == Shade(d, StreamLayer(win, 0, after), x, y)
    {
      assert mid.View(x, y) == Shade(d, StreamLayer(win, 0, before), x, y);
      if y != win.y + row {
        OtherRow(win, image, row, x, y);
      }
    }
  }

  lemma OtherRow(win: Window, image: seq<Color>, row: nat, x: int, y: int)
    requires win.w > 0 && 0 <= row * win.w <= (row + 1) * win.w <= |image| && y != win.y + row
    ensures StreamAt(win, 0, image[..(row + 1) * win.w], x, y) == StreamAt(win, 0, image[..row * win.w], x, y)
  {
    var i := (y - win.y) * win.w + (x - win.x);
    var n := row * win.w;
    assert (row + 1) * win.w == n + win.w;
    if 0 <= x - win.x < win.w && n <= i < n + win.w {
      IndexUnique(win.w, x - win.x, y - win.y, i - n, row);
    }
  }

  /** What the loop of drawCircle has plotted after visiting `visited`: each point's four rotations. */
  function Plots(cx: int, cy: int, visited: seq<Point>): seq<Point> {
    if visited == [] then [] else
      var p := visited[|visited| - 1];
      Plots(cx, cy, visited[..|visited| - 1]) +
        [Point(cx + p.x, cy + p.y), Point(cx - p.y, cy + p.x), Point(cx - p.x, cy - p.y), Point(cx + p.y, cy - p.x)]
  }

  lemma {:induction false} PlotsTurn(cx: int, cy: int, visited: seq<Point>, p: Point)
    ensures p in Plots(cx, cy, visited) <==>
              var q := Point(p.x - cx, p.y - cy);
              || q in visited || Point(q.y, -q.x) in visited
              || Point(-q.x, -q.y) in visited || Point(-q.y, q.x) in visited
  {
    if visited != [] {
      var front, last := visited[..|visited| - 1], visited[|visited| - 1];
      PlotsTurn(cx, cy, front, p);
      SnocMembers(front, last, visited);
      var four := [Point(cx + last.x, cy + last.y), Point(cx - last.y, cy + last.x),
                   Point(cx - last.x, cy - last.y), Point(cx + last.y, cy - last.x)];
      assert p in Plots(cx, cy, visited) <==> p in Plots(cx, cy, front) || p in four;
    }
  }

  lemma SnocMembers(front: seq<Point>, last: Point, s: seq<Point>)
    requires s == front + [last]
    ensures forall q :: q in s <==> q in front || q == last
  {
  }

  /** The picture drawCircle leaves. */
  function CircleLayer(cx: int, cy: int, r: int, c: Color): Layer {
    (x, y) => if CirclePaints(r, x - cx, y - cy) then Some(c) else None
  }

  lemma PlotsAreCircle(cx: int, cy: int, r: int, visited: seq<Point>, x: int, y: int)
    requires if r >= 1 then visited == QuadrantArc(r) else visited == [Point(r, 0)]
    ensures Point(x, y) in Plots(cx, cy, visited) <==> CirclePaints(r, x - cx, y - cy)
  {
    hide Plots, OnRing;
    var q := Point(x - cx, y - cy);
    PlotsTurn(cx, cy, visited, Point(x, y));
    if r >= 1 {
      QuarterTurns(r, q);
    }
  }

  /** An offset is on the ring when the quadrant arc holds one of its quarter turns. */
  lemma QuarterTurns(r: int, q: Point)
    requires r >= 1
    ensures OnRing(r, q.x, q.y) <==>
              || q in QuadrantArc(r) || Point(q.y, -q.x) in QuadrantArc(r)
              || Point(-q.x, -q.y) in QuadrantArc(r) || Point(-q.y, q.x) in QuadrantArc(r)
  {
    hide OnRing, QuadrantArc;
    QuadrantOnly(r, q);
    QuadrantOnly(r, Point(q.y, -q.x));
    QuadrantOnly(r, Point(-q.x, -q.y));
    QuadrantOnly(r, Point(-q.y, q.x));
    RingSymmetric(r, q.x, q.y);
    RingSymmetric(r, q.y, -q.x);
    CentreOffRing(r);
  }

  lemma NoPlots(d: Device, cx: int, cy: int, c: Color)
    requires d.Valid()
    ensures Overlaid(d, d, Solid(Plots(cx, cy, []), c))
  {
  }

  lemma PlotsOverlayCircle(start: Device, mid: Device, cx: int, cy: int, r: int, visited: seq<Point>, c: Color)
    requires if r >= 1 then visited == QuadrantArc(r) else visited == [Point(r, 0)]
    requires Overlaid(start, mid, Solid(Plots(cx, cy, visited), c))
    ensures Overlaid(start, mid, CircleLayer(cx, cy, r, c))
  {
    forall px, py
      ensures CircleLayer(cx, cy, r, c)(px, py) == Solid(Plots(cx, cy, visited), c)(px, py)
    {
      PlotsAreCircle(cx, cy, r, visited, px, py);
    }
    OverlaySame(start, mid, Solid(Plots(cx, cy, visited), c), CircleLayer(cx, cy, r, c));
  }

  /** The picture fillTriangle leaves. */
  function TriangleLayer(v0: Point, v1: Point, v2: Point, c: Color): Layer {
    (x, y) => if Filled(v0, v1, v2, Point(x, y)) then Some(c) else None
  }

  /** The scan of fillTriangle up to, not including, (px, py). */
  function PartTriangle(v0: Point, v1: Point, v2: Point, c: Color, px: int, py: int): Layer {
    (x, y) => if Filled(v0, v1, v2, Point(x, y)) && (y < py || (y == py && x < px)) then Some(c) else None
  }

  class Tft {
    const fb: Framebuffer
    const isSprite: bool
    const parent: Tft?
    var hasBuf: bool
    var pixels: seq<Color>
    var bw: nat
    var bh: nat
    var w: int
    var h: int
    var rotation: int
    var win: Window
    var awi: nat

    ghost predicate Valid()
      reads this, fb
    {
      && fb.Valid()
      && (hasBuf ==> isSprite && |pixels| == bw * bh)
      && (parent != null ==> isSprite && parent.fb == fb)
      && 0 <= rotation < 4 && awi < TWO_32 && win.w < TWO_31 && win.h < TWO_31
    }

    /** Where this object's pixels go: its own buffer, the screen, or nowhere at all. */
    function Dev(): Device
      reads this, fb
    {
      if hasBuf then Sprite(Canvas(bw, bh, pixels))
      else if isSprite then Sprite(Canvas(0, 0, []))
      else Device(fb.Buffer(), rotation >= 2, w, h)
    }

    /** Drawing changes one buffer: a sprite's own, or the screen's. */
    twostate predicate OneBuffer()
      reads this, fb
    {
      && (isSprite ==> fb.px == old(fb.px))
      && (!hasBuf ==> pixels == old(pixels))
    }

    constructor OnScreen(framebuffer: Framebuffer, width: int, height: int)
      requires framebuffer.Valid()
      ensures Valid() && fb == framebuffer && !isSprite && !hasBuf && parent == null
      ensures w == width && h == height && rotation == 0
    {
      fb, isSprite, parent := framebuffer, false, null;
      hasBuf, pixels, bw, bh := false, [], 0, 0;
      w, h, rotation := width, height, 0;
      win, awi := Window(0, 0, 0, 0), 0;
    }

    constructor OffScreen(framebuffer: Framebuffer, parentDisplay: Tft?)
      requires framebuffer.Valid() && (parentDisplay != null ==> parentDisplay.fb == framebuffer)
      ensures Valid() && fb == framebuffer && isSprite && !hasBuf && parent == parentDisplay
    {
      fb, isSprite, parent := framebuffer, true, parentDisplay;
      hasBuf, pixels, bw, bh := false, [], 0, 0;
      w, h, rotation := 240, 320, 0;
      win, awi := Window(0, 0, 0, 0), 0;
    }

    method SetRotation(r: nat)
      requires Valid()
      modifies this`rotation, this`w, this`h, fb
      ensures Valid()
      ensures rotation == r % 4
      ensures (rotation % 2 == 1 ==> w >= h) && (rotation % 2 == 0 ==> w <= h)
      ensures multiset{w, h} == multiset{old(w), old(h)}
      ensures !hasBuf && w >= 0 && h >= 0 ==> fb.w == w && fb.h == h
      ensures hasBuf ==> fb.Buffer() == old(fb.Buffer())
    {
      rotation := r % 4;
      var s, l := if w < h then w else h, if w < h then h else w;
      if rotation % 2 == 1 {
        w, h := l, s;
      } else {
        w, h := s, l;
      }
      if !hasBuf && w >= 0 && h >= 0 {
        fb.Init(w, h);
      }
    }

    method PutPx(x: int, y: int, color: Color)
      requires Valid()
      modifies this`pixels, fb`px
      ensures Valid() && OneBuffer()
      ensures Dev() == old(Dev()).Plot(x, y, color)
      ensures !isSprite ==> OneCell(old(fb.Buffer()), fb.Buffer(), if rotation >= 2 then w - 1 - x else x,
                                    if rotation >= 2 then h - 1 - y else y, color)
      ensures hasBuf ==> OneCell(old(Canvas(bw, bh, pixels)), Canvas(bw, bh, pixels), x, y, color)
    {
      ghost var screen, own := fb.Buffer(), Canvas(bw, bh, pixels);
      if hasBuf {
        if x < 0 || y < 0 || x >= bw || y >= bh {
          return;
        }
        IndexInside(bw, bh, x, y);
        pixels := pixels[y * bw + x := color];
        PutsOneCell(own, x, y, color);
      } else if !isSprite {
        var mx, my := x, y;
        if rotation >= 2 {
          mx, my := w - 1 - x, h - 1 - y;
        }
        if mx < 0 || my < 0 || mx >= fb.w || my >= fb.h {
          return;
        }
        IndexInside(fb.w, fb.h, mx, my);
        fb.px := fb.px[my * fb.w + mx := color];
        PutsOneCell(screen, mx, my, color);
      }
    }

    /** What an overlay comes to in the cells of the framebuffer: in rotations 2 and 3 the picture is turned by 180
        degrees, in the others it stands as drawn. */
    twostate lemma InCells(layer: Layer)
      requires old(Valid()) && Valid() && !isSprite && !hasBuf && !old(hasBuf)
      requires rotation == old(rotation) && w == old(w) && h == old(h)
      requires Overlaid(old(Dev()), Dev(), layer)
      ensures CellsPainted(old(fb.Buffer()), fb.Buffer(), layer, rotation >= 2, w, h)
    {
      CellsOverlaid(old(Dev()), Dev(), layer);
    }

    /** The walk plots the closed form of the line, in order, and nothing else. */
    method DrawLine(p: Point, q: Point, c: Color) returns (ghost trace: seq<Point>)
      requires Valid()
      modifies this`pixels, fb`px
      ensures Valid() && OneBuffer()
      ensures trace == LinePixels(p, q)
      ensures Overlaid(old(Dev()), Dev(), Solid(LinePixels(p, q), c))
    {
      hide Overlaid, LineState, LinePoint;
      var dx: int, dy: int := Abs(q.x - p.x), -(Abs(q.y - p.y) as int);
      var sx, sy := Sign(p.x, q.x), Sign(p.y, q.y);
      var err := dx + dy;
      var x0, y0 := p.x, p.y;
      ghost var start, k := Dev(), 0;
      trace := [];
      LineStarts(p, q);
      ClearOverlays(start);
      OverlaySame(start, start, Clear(), Solid([], c));
      while true
        invariant Valid() && OneBuffer()
        invariant 0 <= k <= Steps(p, q) && LineState(p, q, k, x0, y0, err)
        invariant trace == LinePixels(p, q)[..k]
        invariant Overlaid(start, Dev(), Solid(trace, c))
        decreases Steps(p, q) - k
      {
        LineStops(p, q, k, x0, y0, err);
        trace := PlotOne(trace, x0, y0, c, start);
        if x0 == q.x && y0 == q.y {
          break;
        }
        LineAdvances(p, q, k, x0, y0, err);
        var e2 := 2 * err;
        if e2 >= dy {
          err := err + dy;
          x0 := x0 + sx;
        }
        if e2 <= dx {
          err := err + dx;
          y0 := y0 + sy;
        }
        k := k + 1;
      }
    }

    /** The walk visits one quadrant's arc and leaves the ring of `Circles.OnRing`, whatever the radius. */
    method DrawCircle(cx: int, cy: int, radius: int, c: Color) returns (ghost visited: seq<Point>)
      requires Valid()
      modifies this`pixels, fb`px
      ensures Valid() && OneBuffer()
      ensures radius >= 1 ==> visited == QuadrantArc(radius)
      ensures Overlaid(old(Dev()), Dev(), CircleLayer(cx, cy, radius, c))
    {
      hide Overlaid, CircleState, Plots, QuadrantArc, CircleLayer;
      var x, y, err := -radius, 0, 2 - 2 * radius;
      var r := radius;
      visited := [];
      ghost var start := Dev();
      NoPlots(start, cx, cy, c);
      CircleStarts(radius);
      while true
        invariant Valid() && OneBuffer()
        invariant Overlaid(start, Dev(), Solid(Plots(cx, cy, visited), c))
        invariant CircleState(radius, x, y, err, visited)
        decreases -x + (radius - y)
      {
        PlotFour(cx, cy, visited, Point(-x, y), c, start);
        CircleAdvances(radius, x, y, err, visited);
        visited := visited + [Point(-x, y)];
        r := err;
        if r <= y {
          y := y + 1;
          err := err + (y * 2 + 1);
        }
        if r > x || err > y {
          x := x + 1;
          err := err + (x * 2 + 1);
        }
        if x >= 0 {
          break;
        }
      }
      PlotsOverlayCircle(start, Dev(), cx, cy, radius, visited, c);
    }

    /** The body of the circle loop: one visited point and its three turns. */
    method PlotFour(cx: int, cy: int, ghost visited: seq<Point>, p: Point, c: Color, ghost start: Device)
      requires Valid()
      requires Overlaid(start, Dev(), Solid(Plots(cx, cy, visited), c))
      modifies this`pixels, fb`px
      ensures Valid() && OneBuffer()
      ensures Overlaid(start, Dev(), Solid(Plots(cx, cy, visited + [p]), c))
    {
      hide Overlaid;
      var x, y := -p.x, p.y;
      ghost var done := Plots(cx, cy, visited);
      done := PlotOne(done, cx - x, cy + y, c, start);
      done := PlotOne(done, cx - y, cy - x, c, start);
      done := PlotOne(done, cx + x, cy - y, c, start);
      done := PlotOne(done, cx + y, cy + x, c, start);
      assert (visited + [p])[..|visited|] == visited;
      assert done == Plots(cx, cy, visited + [p]);
    }

    method PlotOne(ghost done: seq<Point>, x: int, y: int, c: Color, ghost start: Device) returns (ghost done': seq<Point>)
      requires Valid() && Overlaid(start, Dev(), Solid(done, c))
      modifies this`pixels, fb`px
      ensures Valid() && OneBuffer()
      ensures done' == done + [Point(x, y)] && Overlaid(start, Dev(), Solid(done', c))
    {
      hide Overlaid;
      done' := done + [Point(x, y)];
      OverlayPlot(start, Dev(), Solid(done, c), x, y, c, Solid(done', c));
      PutPx(x, y, c);
    }

    /** The scan paints the hull of the three vertices: see `Triangles.FilledIsHull`. */
    method FillTriangle(v0: Point, v1: Point, v2: Point, c: Color)
      requires Valid()
      modifies this`pixels, fb`px
      ensures Valid() && OneBuffer()
      ensures Overlaid(old(Dev()), Dev(), TriangleLayer(v0, v1, v2, c))
    {
      hide Overlaid;
      var minx, maxx := Min3(v0.x, v1.x, v2.x), Max3(v0.x, v1.x, v2.x);
      var miny, maxy := Min3(v0.y, v1.y, v2.y), Max3(v0.y, v1.y, v2.y);
      ghost var start := Dev();
      ClearOverlays(start);
      OverlaySame(start, start, Clear(), PartTriangle(v0, v1, v2, c, minx, miny));
      var py := miny;
      while py <= maxy
        invariant miny <= py <= maxy + 1
        invariant Valid() && OneBuffer()
        invariant Overlaid(start, Dev(), PartTriangle(v0, v1, v2, c, minx, py))
      {
        var px := minx;
        while px <= maxx
          invariant minx <= px <= maxx + 1
          invariant Valid() && OneBuffer()
          invariant Overlaid(start, Dev(), PartTriangle(v0, v1, v2, c, px, py))
        {
          var p := Point(px, py);
          var w0, w1, w2 := Edge(v1, v2, p), Edge(v2, v0, p), Edge(v0, v1, p);
          if (w0 >= 0 && w1 >= 0 && w2 >= 0) || (w0 <= 0 && w1 <= 0 && w2 <= 0) {
            OverlayPlot(start, Dev(), PartTriangle(v0, v1, v2, c, px, py), px, py, c,
                        PartTriangle(v0, v1, v2, c, px + 1, py));
            PutPx(px, py, c);
          } else {
            OverlaySame(start, Dev(), PartTriangle(v0, v1, v2, c, px, py), PartTriangle(v0, v1, v2, c, px + 1, py));
          }
          px := px + 1;
        }
        OverlaySame(start, Dev(), PartTriangle(v0, v1, v2, c, px, py), PartTriangle(v0, v1, v2, c, minx, py + 1));
        py := py + 1;
      }
      OverlaySame(start, Dev(), PartTriangle(v0, v1, v2, c, minx, py), TriangleLayer(v0, v1, v2, c));
    }

    method FillScreen(c: Color)
      requires Valid()
      modifies this`pixels, fb`px
      ensures Valid() && OneBuffer()
      ensures Overlaid(old(Dev()), Dev(), (x, y) => Some(c))
    {
      ghost var start := Dev();
      if hasBuf {
        pixels := seq(|pixels|, _ => c);
        forall x, y
          ensures Dev().View(x, y) == if start.Shows(x, y) then c else start.View(x, y)
        {
          if start.Shows(x, y) {
            IndexInside(bw, bh, x, y);
          }
        }
      } else if !isSprite {
        fb.Fill(c);
      }
    }

    method PushImage(x: int, y: int, width: int, height: int, data: seq<Color>)
      requires Valid()
      requires width > 0 && height > 0 ==> |data| >= width * height
      modifies this`pixels, fb`px
      ensures Valid() && OneBuffer()
      ensures Overlaid(old(Dev()), Dev(), StreamLayer(Window(x, y, width, height), 0, data))
    {
      hide Overlaid, StreamAt;
      ghost var picture, start, done := Window(x, y, width, height), Dev(), 0;
      StreamStarts(start, picture, 0, data);
      if width <= 0 || height <= 0 {
        return;
      }
      var row := 0;
      while row < height
        invariant 0 <= row <= height && 0 <= done <= |data| && done == row * width
        invariant Valid() && OneBuffer()
        invariant Overlaid(start, Dev(), StreamLayer(picture, 0, data[..done]))
      {
        NextRowInside(row, width, height);
        var col := 0;
        while col < width
          invariant 0 <= col <= width && 0 <= done <= |data| && done == row * width + col
          invariant Valid() && OneBuffer()
          invariant Overlaid(start, Dev(), StreamLayer(picture, 0, data[..done]))
        {
          PushOne(x, y, col, row, data[row * width + col], picture, data, done, start);
          col, done := col + 1, done + 1;
        }
        row := row + 1;
      }
      FullImage(picture, data);
      OverlaySame(start, Dev(), StreamLayer(picture, 0, data[..done]), StreamLayer(picture, 0, data));
    }

    /** One pixel of an image, and the layer it completes. */
    method PushOne(x: int, y: int, col: int, row: int, c: Color,
                   ghost picture: Window, ghost data: seq<Color>, ghost done: nat, ghost start: Device)
      requires Valid() && done < |data| && c == data[done]
      requires picture.x == x && picture.y == y && 0 <= col < picture.w && 0 <= row < picture.h
      requires done == row * picture.w + col
      requires Overlaid(start, Dev(), StreamLayer(picture, 0, data[..done]))
      modifies this`pixels, fb`px
      ensures Valid() && OneBuffer()
      ensures Overlaid(start, Dev(), StreamLayer(picture, 0, data[..done + 1]))
    {
      hide Overlaid, StreamAt;
      StreamPlots(start, Dev(), picture, 0, data, done, col, row);
      PutPx(x + col, y + row, c);
    }

    method SetAddrWindow(x: int, y: int, width: int, height: int)
      requires Valid() && width < TWO_31 && height < TWO_31
      modifies this`win, this`awi
      ensures Valid() && win == Window(x, y, width, height) && awi == 0
    {
      win, awi := Window(x, y, width, height), 0;
    }

    /** One chunk of a pixel stream. Over whole runs see `Images.StreamIsImage`. */
    method PushColors(data: seq<Color>)
      requires Valid() && |data| < TWO_32
      modifies this`pixels, this`awi, fb`px
      ensures Valid() && OneBuffer()
      ensures Dev() == Stream(old(Dev()), win, old(awi), data, 0)
      ensures awi == (old(awi) + |data|) % TWO_32
    {
      ghost var start := Dev();
      var k := 0;
      while k < |data| && win.w > 0 && win.h > 0
        invariant 0 <= k <= |data|
        invariant Valid() && OneBuffer() && awi == old(awi)
        invariant Stream(start, win, awi, data, 0) == Stream(Dev(), win, awi, data, k)
      {
        var idx := (awi + k) % TWO_32;
        RowFits(idx, win.w);
        var col, row := ToInt32(idx % win.w), ToInt32(idx / win.w);
        if row >= win.h {
          break;
        }
        PutPx(win.x + col, win.y + row, data[k]);
        k := k + 1;
      }
      awi := (awi + |data|) % TWO_32;
    }

    /** A fresh black buffer, or nothing at all when a dimension is not positive. */
    method CreateSprite(width: int, height: int) returns (ok: bool)
      requires Valid() && isSprite
      modifies this`hasBuf, this`pixels, this`bw, this`bh, this`w, this`h
      ensures Valid()
      ensures ok == (width > 0 && height > 0)
      ensures ok ==> hasBuf && bw == width && bh == height && forall x, y :: Dev().View(x, y) == 0
      ensures !ok ==> hasBuf == old(hasBuf) && Dev() == old(Dev())
    {
      if width <= 0 || height <= 0 {
        return false;
      }
      bw, bh, w, h := width, height, width, height;
      pixels := seq(width * height, _ => 0);
      hasBuf := true;
      forall x, y
        ensures Dev().View(x, y) == 0
      {
        if Dev().Shows(x, y) {
          IndexInside(bw, bh, x, y);
        }
      }
      ok := true;
    }

    method DeleteSprite()
      requires Valid() && isSprite
      modifies this`hasBuf, this`pixels, this`bw, this`bh
      ensures Valid() && !hasBuf
      ensures forall x, y :: !Dev().Shows(x, y)
    {
      pixels, hasBuf, bw, bh := [], false, 0, 0;
    }

    /** A parented sprite composes into its parent; an orphan goes straight to the framebuffer, past any
        mount. Nesting is `Images.NestedSprites`. */
    method PushSprite(x: int, y: int)
      requires Valid() && isSprite && parent != this
      requires parent != null ==> parent.Valid()
      modifies fb`px, if parent == null then {} else {parent}
      ensures Valid() && Dev() == old(Dev()) && (parent != null ==> parent.Valid())
      ensures !hasBuf ==> fb.px == old(fb.px) && (parent != null ==> parent.Dev() == old(parent.Dev()))
      ensures hasBuf && parent != null ==>
                Overlaid(old(parent.Dev()), parent.Dev(), CanvasLayer(x, y, Dev().canvas))
      ensures hasBuf && parent == null ==>
                Overlaid(Sprite(old(fb.Buffer())), Sprite(fb.Buffer()), CanvasLayer(x, y, Dev().canvas))
    {
      hide Overlaid, StreamAt;
      if !hasBuf {
        return;
      }
      ghost var cv := Dev().canvas;
      forall px, py
        ensures StreamLayer(Window(x, y, bw, bh), 0, pixels)(px, py) == CanvasLayer(x, y, cv)(px, py)
      {
        ImageIsCanvas(x, y, cv, px, py);
      }
      if parent != null {
        parent.PushImage(x, y, bw, bh, pixels);
        OverlaySame(old(parent.Dev()), parent.Dev(), StreamLayer(Window(x, y, bw, bh), 0, pixels), CanvasLayer(x, y, cv));
      } else {
        fb.Blit(x, y, bw, bh, pixels);
        OverlaySame(Sprite(old(fb.Buffer())), Sprite(fb.Buffer()),
                    StreamLayer(Window(x, y, bw, bh), 0, pixels), CanvasLayer(x, y, cv));
      }
    }

    /** A touch at framebuffer cell (tx, ty), reported in the sketch's coordinates: plotting where the
        sketch was told paints the cell that was touched, in every rotation. */
    method GetTouch(pressed: bool, tx: int, ty: int) returns (hit: bool, x: int, y: int)
      requires Valid() && !hasBuf && !isSprite
      ensures hit == pressed
      ensures 0 <= tx < w < 0x1_0000 && 0 <= ty < h < 0x1_0000 && hit ==>
                if rotation >= 2 then x + tx == w - 1 && y + ty == h - 1 else x == tx && y == ty
      ensures 0 <= tx < fb.w == w < 0x1_0000 && 0 <= ty < fb.h == h < 0x1_0000 && hit ==>
                forall c :: Dev().Plot(x, y, c).canvas == fb.Buffer().Put(tx, ty, c)
    {
      if !pressed {
        return false, 0, 0;
      }
      var lx, ly := tx, ty;
      if rotation >= 2 {
        lx, ly := w - 1 - tx, h - 1 - ty;
      }
      return true, lx % 0x1_0000, ly % 0x1_0000;
    }
  }
}
