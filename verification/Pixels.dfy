/** RGB565 pixel buffers and the drawing surface that `putpx` writes through.

    A `Canvas` is the row-major buffer behind a sprite or the shared framebuffer. A `Device` is a canvas
    together with the 180-degree mount of rotations 2 and 3. A `Layer` is a partial picture: what a
    drawing operation wants to leave at each logical coordinate. Every drawing method of the display
    class is specified by the one layer it overlays on the device.
 */
module Pixels {

  datatype Option<+T> = None | Some(value: T)

  type Color = c: int | 0 <= c < 0x10000

  datatype Point = Point(x: int, y: int)

  type Layer = (int, int) -> Option<Color>

  // Row-major indexing is within the buffer, and only one cell has a given index.

  lemma IndexInside(w: int, h: int, x: int, y: int)
    requires 0 <= x < w && 0 <= y < h
    ensures 0 <= y * w + x < w * h
  {
    assert (y + 1) * w <= h * w;
    assert 0 <= y * w;
  }

  lemma IndexUnique(w: int, x: int, y: int, x': int, y': int)
    requires 0 <= x < w && 0 <= x' < w
    requires y * w + x == y' * w + x'
    ensures x == x' && y == y'
  {
    if y < y' {
      RowsApart(w, y, y');
    } else if y' < y {
      RowsApart(w, y', y);
    }
  }

  lemma RowsApart(w: int, y: int, y': int)
    requires 0 < w && y < y'
    ensures y' * w >= y * w + w
  {
    var between := y' - y - 1;
    assert between * w >= 0;
    assert y' * w == y * w + between * w + w;
  }

  datatype Canvas = Canvas(w: nat, h: nat, px: seq<Color>) {

    ghost predicate Valid() {
      |px| == w * h
    }

    predicate Inside(x: int, y: int) {
      0 <= x < w && 0 <= y < h
    }

    /** What the framebuffer reads at a coordinate: black outside the buffer. */
    function At(x: int, y: int): Color
      requires Valid()
    {
      if Inside(x, y) then IndexInside(w, h, x, y); px[y * w + x] else 0
    }

    function Put(x: int, y: int, c: Color): (r: Canvas)
      requires Valid()
      ensures r.Valid() && r.w == w && r.h == h
    {
      if Inside(x, y) then IndexInside(w, h, x, y); this.(px := px[y * w + x := c]) else this
    }

    lemma PutAt(x: int, y: int, c: Color, x': int, y': int)
      requires Valid()
      ensures Put(x, y, c).At(x', y') == if x == x' && y == y' && Inside(x, y) then c else At(x', y')
    {
      if Inside(x, y) && Inside(x', y') {
        IndexInside(w, h, x, y);
        IndexInside(w, h, x', y');
        if y * w + x == y' * w + x' {
          IndexUnique(w, x, y, x', y');
        }
      }
    }
  }

  /** Two buffers of one size that read the same everywhere are the same buffer. */
  lemma CanvasExtensional(a: Canvas, b: Canvas)
    requires a.Valid() && b.Valid() && a.w == b.w && a.h == b.h
    requires forall x, y :: a.At(x, y) == b.At(x, y)
    ensures a == b
  {
    forall i | 0 <= i < |a.px|
      ensures a.px[i] == b.px[i]
    {
      var w := a.w;
      assert w == 0 ==> w * a.h == 0;
      var x, y := i % w, i / w;
      assert i == y * w + x;
      assert y >= a.h ==> y * w >= a.h * w;
      assert a.At(x, y) == b.At(x, y);
    }
  }

  /** Where a display's pixels land: its canvas, seen through the mount. `lw` and `lh` are the logical
      size the mirror uses, which need not be the size of the canvas. */
  datatype Device = Device(canvas: Canvas, flip: bool, lw: int, lh: int) {

    ghost predicate Valid() {
      canvas.Valid()
    }

    function Mx(x: int): int { if flip then lw - 1 - x else x }

    function My(y: int): int { if flip then lh - 1 - y else y }

    predicate Shows(x: int, y: int) {
      canvas.Inside(Mx(x), My(y))
    }

    /** The colour at logical coordinate (x, y). */
    function View(x: int, y: int): Color
      requires Valid()
    {
      canvas.At(Mx(x), My(y))
    }

    function Plot(x: int, y: int, c: Color): (r: Device)
      requires Valid()
      ensures r.Valid() && SameFrame(r)
    {
      this.(canvas := canvas.Put(Mx(x), My(y), c))
    }

    ghost predicate SameFrame(that: Device) {
      && canvas.w == that.canvas.w && canvas.h == that.canvas.h
      && flip == that.flip && lw == that.lw && lh == that.lh
    }

    lemma PlotView(x: int, y: int, c: Color, x': int, y': int)
      requires Valid()
      ensures Plot(x, y, c).View(x', y') == if x == x' && y == y' && Shows(x, y) then c else View(x', y')
    {
      canvas.PutAt(Mx(x), My(y), c, Mx(x'), My(y'));
    }
  }

  lemma DeviceExtensional(a: Device, b: Device)
    requires a.Valid() && b.Valid() && a.SameFrame(b)
    requires forall x, y :: a.View(x, y) == b.View(x, y)
    ensures a == b
  {
    forall x, y
      ensures a.canvas.At(x, y) == b.canvas.At(x, y)
    {
      assert a.Mx(a.Mx(x)) == x && a.My(a.My(y)) == y;
      assert a.View(a.Mx(x), a.My(y)) == b.View(a.Mx(x), a.My(y));
    }
    CanvasExtensional(a.canvas, b.canvas);
  }

  /** `after` is `before` with the layer painted over it, clipped to what the device shows. */
  ghost predicate Overlaid(before: Device, after: Device, layer: Layer) {
    && before.Valid() && after.Valid() && before.SameFrame(after)
    && forall x, y :: after.View(x, y) == Shade(before, layer, x, y)
  }

  ghost function Shade(before: Device, layer: Layer, x: int, y: int): Color
    requires before.Valid()
  {
    if before.Shows(x, y) && layer(x, y).Some? then layer(x, y).value else before.View(x, y)
  }

  function Clear(): Layer { (x, y) => None }

  lemma ClearOverlays(d: Device)
    requires d.Valid()
    ensures Overlaid(d, d, Clear())
  {
  }

  /** An overlay determines the result: this is what makes `Overlaid` a complete specification. */
  lemma OverlayDetermines(before: Device, a: Device, b: Device, la: Layer, lb: Layer)
    requires Overlaid(before, a, la) && Overlaid(before, b, lb)
    requires forall x, y :: before.Shows(x, y) ==> la(x, y) == lb(x, y)
    ensures a == b
  {
    forall x, y
      ensures a.View(x, y) == b.View(x, y)
    {
      assert Shade(before, la, x, y) == Shade(before, lb, x, y);
    }
    DeviceExtensional(a, b);
  }

  /** Exactly the cell (x, y) took the colour, if the buffer has it. */
  ghost predicate OneCell(before: Canvas, after: Canvas, x: int, y: int, c: Color) {
    && before.Valid() && after.Valid() && before.w == after.w && before.h == after.h
    && forall u, v :: after.At(u, v) == if u == x && v == y && 0 <= x < after.w && 0 <= y < after.h then c else before.At(u, v)
  }

  lemma PutsOneCell(cv: Canvas, x: int, y: int, c: Color)
    requires cv.Valid()
    ensures OneCell(cv, cv.Put(x, y, c), x, y, c)
  {
    forall u, v
      ensures cv.Put(x, y, c).At(u, v) == if x == u && y == v && cv.Inside(x, y) then c else cv.At(u, v)
    {
      cv.PutAt(x, y, c, u, v);
    }
  }

  // ---- The mount, cell by cell ----

  /** Cell (u, v) took what the layer has for it, with the picture turned by 180 degrees or not. */
  predicate CellPainted(before: Canvas, after: Canvas, layer: Layer, turned: bool, w: int, h: int, u: int, v: int)
    requires before.Valid() && after.Valid()
  {
    var top := if turned then layer(w - 1 - u, h - 1 - v) else layer(u, v);
    after.At(u, v) == if top.Some? then top.value else before.At(u, v)
  }

  ghost predicate CellsPainted(before: Canvas, after: Canvas, layer: Layer, turned: bool, w: int, h: int) {
    && before.Valid() && after.Valid() && before.w == after.w && before.h == after.h
    && forall u, v :: 0 <= u < after.w && 0 <= v < after.h ==> CellPainted(before, after, layer, turned, w, h, u, v)
  }

  /** The picture a layer leaves, told in the canvas's own cells. */
  lemma CellsOverlaid(before: Device, after: Device, layer: Layer)
    requires Overlaid(before, after, layer)
    ensures CellsPainted(before.canvas, after.canvas, layer, before.flip, before.lw, before.lh)
  {
    forall u, v | before.canvas.Inside(u, v)
      ensures CellPainted(before.canvas, after.canvas, layer, before.flip, before.lw, before.lh, u, v)
    {
      var x, y := if before.flip then before.lw - 1 - u else u, if before.flip then before.lh - 1 - v else v;
      assert after.View(x, y) == Shade(before, layer, x, y);
    }
  }

  /** One canvas is the other turned by 180 degrees. */
  ghost predicate HalfTurn(a: Canvas, b: Canvas)
    requires a.Valid() && b.Valid()
  {
    a.w == b.w && a.h == b.h && forall u, v :: a.Inside(u, v) ==> b.At(u, v) == a.At(a.w - 1 - u, a.h - 1 - v)
  }

  /** Drawn through the flipped mount, the same picture comes out as the half-turn. */
  lemma FlippedIsHalfTurn(upright: Device, flipped: Device, drawn: Device, turned: Device, layer: Layer)
    requires Overlaid(upright, drawn, layer) && Overlaid(flipped, turned, layer)
    requires !upright.flip && flipped.flip && flipped.lw == flipped.canvas.w && flipped.lh == flipped.canvas.h
    requires HalfTurn(upright.canvas, flipped.canvas)
    ensures HalfTurn(drawn.canvas, turned.canvas)
  {
    hide Canvas.At, Shade;
    CellsOverlaid(upright, drawn, layer);
    CellsOverlaid(flipped, turned, layer);
    var w, h := drawn.canvas.w, drawn.canvas.h;
    forall u, v | drawn.canvas.Inside(u, v)
      ensures turned.canvas.At(u, v) == drawn.canvas.At(w - 1 - u, h - 1 - v)
    {
      assert CellPainted(upright.canvas, drawn.canvas, layer, false, upright.lw, upright.lh, w - 1 - u, h - 1 - v);
      assert CellPainted(flipped.canvas, turned.canvas, layer, true, w, h, u, v);
    }
  }

  /** The upper layer hides the lower one wherever it has a colour. */
  function Over(upper: Layer, lower: Layer): Layer {
    (x, y) => if upper(x, y).Some? then upper(x, y) else lower(x, y)
  }

  lemma OverlayTwice(a: Device, b: Device, c: Device, lower: Layer, upper: Layer)
    requires Overlaid(a, b, lower) && Overlaid(b, c, upper)
    ensures Overlaid(a, c, Over(upper, lower))
  {
    forall x, y
      ensures c.View(x, y) == Shade(a, Over(upper, lower), x, y)
    {
      assert c.View(x, y) == Shade(b, upper, x, y);
      assert b.View(x, y) == Shade(a, lower, x, y);
    }
  }

  /** One more plotted pixel turns `layer` into `layer'`. */
  lemma OverlayPlot(before: Device, mid: Device, layer: Layer, x: int, y: int, c: Color, layer': Layer)
    requires Overlaid(before, mid, layer)
    requires forall x', y' :: layer'(x', y') == if x' == x && y' == y then Some(c) else layer(x', y')
    ensures Overlaid(before, mid.Plot(x, y, c), layer')
  {
    forall x', y'
      ensures mid.Plot(x, y, c).View(x', y') == Shade(before, layer', x', y')
    {
      mid.PlotView(x, y, c, x', y');
      assert mid.View(x', y') == Shade(before, layer, x', y');
    }
  }

  lemma OverlaySame(before: Device, mid: Device, layer: Layer, layer': Layer)
    requires Overlaid(before, mid, layer)
    requires forall x, y :: layer'(x, y) == layer(x, y)
    ensures Overlaid(before, mid, layer')
  {
    forall x, y
      ensures mid.View(x, y) == Shade(before, layer', x, y)
    {
      assert mid.View(x, y) == Shade(before, layer, x, y);
    }
  }

  /** A set of points in one colour. */
  function Solid(points: seq<Point>, c: Color): Layer {
    (x, y) => if Point(x, y) in points then Some(c) else None
  }
}
