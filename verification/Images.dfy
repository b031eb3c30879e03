/** Rectangles of pixels laid over a device: whole images, pixel streams and nested sprites.

    `pushImage` and the address window of `setAddrWindow` / `pushColors` are the same picture, a `Window`
    filled in row-major order; sprites compose because images do.
 */
module Images {
  import opened Pixels

  datatype Window = Window(x: int, y: int, w: int, h: int)

  const TWO_31 := 0x8000_0000
  const TWO_32 := 0x1_0000_0000

  /** The uint32-to-int32 cast. */
  function ToInt32(v: int): int
    requires 0 <= v < TWO_32
  {
    if v < TWO_31 then v else v - TWO_32
  }

  /** The window holding `data` from its pixel number `lo` on, row by row. */
  function StreamAt(win: Window, lo: nat, data: seq<Color>, px: int, py: int): Option<Color> {
    var i := (py - win.y) * win.w + (px - win.x);
    if 0 <= px - win.x < win.w && 0 <= py - win.y < win.h && lo <= i < lo + |data|
    then Some(data[i - lo]) else None
  }

  function StreamLayer(win: Window, lo: nat, data: seq<Color>): Layer {
    (px, py) => StreamAt(win, lo, data, px, py)
  }

  lemma StreamStarts(d: Device, win: Window, lo: nat, data: seq<Color>)
    requires d.Valid()
    ensures Overlaid(d, d, StreamLayer(win, lo, data[..0]))
    ensures win.w <= 0 || win.h <= 0 ==> Overlaid(d, d, StreamLayer(win, lo, data))
  {
  }

  /** Pixel i of an image stands in column i mod w and row i div w, counted from the corner. */
  lemma RowByRow(x: int, y: int, w: int, h: int, image: seq<Color>, i: nat)
    requires 0 < w && 0 < h && i < |image| == w * h
    ensures StreamLayer(Window(x, y, w, h), 0, image)(x + i % w, y + i / w) == Some(image[i])
  {
    var row := i / w;
    assert i == row * w + i % w;
    assert row >= h ==> row * w >= h * w by {
      if row > h {
        RowsApart(w, h, row);
      }
    }
  }

  /** Writing pixel number n of a window extends the layer by that pixel. */
  lemma StreamGrows(win: Window, lo: nat, data: seq<Color>, k: nat, col: int, row: int, px: int, py: int)
    requires k < |data| && win.w > 0 && 0 <= col < win.w && 0 <= row < win.h
    requires lo + k == row * win.w + col
    ensures StreamAt(win, lo, data[..k + 1], px, py)
         == if px == win.x + col && py == win.y + row then Some(data[k])
            else StreamAt(win, lo, data[..k], px, py)
  {
    var i := (py - win.y) * win.w + (px - win.x);
    if 0 <= px - win.x < win.w && i == lo + k {
      IndexUnique(win.w, px - win.x, py - win.y, col, row);
    }
  }

  /** The plot that extends an overlaid stream by one pixel. */
  lemma StreamPlots(d: Device, mid: Device, win: Window, lo: nat, data: seq<Color>, k: nat, col: int, row: int)
    requires k < |data| && win.w > 0 && 0 <= col < win.w && 0 <= row < win.h
    requires lo + k == row * win.w + col
    requires Overlaid(d, mid, StreamLayer(win, lo, data[..k]))
    ensures Overlaid(d, mid.Plot(win.x + col, win.y + row, data[k]), StreamLayer(win, lo, data[..k + 1]))
  {
    forall px, py
      ensures StreamLayer(win, lo, data[..k + 1])(px, py)
           == if px == win.x + col && py == win.y + row then Some(data[k])
              else StreamLayer(win, lo, data[..k])(px, py)
    {
      StreamGrows(win, lo, data, k, col, row, px, py);
    }
    OverlayPlot(d, mid, StreamLayer(win, lo, data[..k]), win.x + col, win.y + row, data[k],
                StreamLayer(win, lo, data[..k + 1]));
  }

  // ---- The streaming window ----

  /** Where stream position n falls: the 32-bit index, then the signed column and row. */
  function StreamCol(win: Window, n: nat): int
    requires 0 < win.w < TWO_31
  {
    ToInt32((n % TWO_32) % win.w)
  }

  function StreamRow(win: Window, n: nat): int
    requires 0 < win.w < TWO_31
  {
    RowFits(n % TWO_32, win.w);
    ToInt32((n % TWO_32) / win.w)
  }

  lemma RowFits(n: int, w: int)
    requires 0 <= n && w > 0
    ensures 0 <= n / w <= n
  {
    var q := n / w;
    assert w * q <= n < w * q + w;
    assert q < 0 ==> w * q + w <= 0;
    assert w * q == q + (w - 1) * q;
    assert q >= 0 ==> (w - 1) * q >= 0;
  }

  /** What `pushColors` does to a device when `awi` pixels went into the window before. */
  function Stream(d: Device, win: Window, awi: nat, data: seq<Color>, k: nat): (r: Device)
    requires d.Valid() && win.w < TWO_31 && k <= |data|
    ensures r.Valid() && d.SameFrame(r)
    decreases |data| - k
  {
    if k == |data| || win.w <= 0 || win.h <= 0 || StreamRow(win, awi + k) >= win.h then d
    else
      Stream(d.Plot(win.x + StreamCol(win, awi + k), win.y + StreamRow(win, awi + k), data[k]),
             win, awi, data, k + 1)
  }

  /** Positions below this limit keep their index and a non-negative row through the 32-bit casts. */
  function StreamLimit(win: Window): nat
    requires 0 < win.w
  {
    if win.w == 1 then TWO_31 else TWO_32
  }

  predicate Ignored(win: Window, n: nat)
    requires 0 < win.w < TWO_31
  {
    StreamRow(win, n) >= win.h
  }

  /** The positions the loop breaks at, in all of 32 bits. Below the limit they are those behind a full window;
      the limit itself is none of them, so it is exact. */
  lemma SurplusIgnored(win: Window, n: nat)
    requires 0 < win.w < TWO_31 && 0 < win.h < TWO_31
    ensures Ignored(win, n) <==> win.w * win.h <= n % TWO_32 < StreamLimit(win)
    ensures n < StreamLimit(win) ==> (Ignored(win, n) <==> n >= win.w * win.h)
    ensures !Ignored(win, StreamLimit(win))
  {
    hide Ignored;
    IgnoredWraps(win, n);
    IgnoredInRange(win, n % TWO_32);
    IgnoredWraps(win, StreamLimit(win));
    IgnoredInRange(win, StreamLimit(win) % TWO_32);
    assert win.w * win.h > 0;
  }

  lemma IgnoredWraps(win: Window, n: nat)
    requires 0 < win.w < TWO_31
    ensures Ignored(win, n) == Ignored(win, n % TWO_32)
  {
    assert (n % TWO_32) % TWO_32 == n % TWO_32;
  }

  lemma IgnoredInRange(win: Window, m: nat)
    requires 0 < win.w < TWO_31 && 0 < win.h < TWO_31 && m < TWO_32
    ensures Ignored(win, m) <==> win.w * win.h <= m < StreamLimit(win)
  {
    if m < StreamLimit(win) {
      PositionDecodes(win, m);
      RowsFull(m / win.w, m % win.w, win.w, win.h);
    }
  }

  lemma RowsFull(row: int, col: int, w: int, h: int)
    requires 0 <= col < w
    ensures row >= h <==> row * w + col >= w * h
  {
    assert row >= h ==> row * w >= h * w;
    assert row < h ==> (row + 1) * w <= h * w;
  }

  lemma PositionDecodes(win: Window, n: nat)
    requires 0 < win.w < TWO_31 && n < StreamLimit(win)
    ensures StreamCol(win, n) == n % win.w && StreamRow(win, n) == n / win.w
    ensures n == (n / win.w) * win.w + n % win.w && 0 <= n % win.w < win.w && 0 <= n / win.w
  {
    RowFits(n, win.w);
    if win.w > 1 {
      HalfFits(n, win.w);
    }
  }

  lemma HalfFits(n: int, w: int)
    requires 0 <= n < TWO_32 && w >= 2
    ensures n / w < TWO_31
  {
    assert w * (n / w) <= n;
    assert n / w >= 0;
    assert (w - 2) * (n / w) >= 0;
  }

  lemma QuotientBelow(n: nat, w: nat)
    requires w > 0
    ensures (n / w) * w <= n
  {
  }

  /** Behind a full window nothing more is shown. */
  lemma FullWindow(win: Window, awi: nat, data: seq<Color>, k: nat)
    requires k <= |data| && 0 < win.w && (awi + k) / win.w >= win.h
    ensures forall px, py :: StreamLayer(win, awi, data)(px, py) == StreamLayer(win, awi, data[..k])(px, py)
  {
    var full := (awi + k) / win.w;
    QuotientBelow(awi + k, win.w);
    forall px, py
      ensures StreamAt(win, awi, data, px, py) == StreamAt(win, awi, data[..k], px, py)
    {
      if 0 <= px - win.x < win.w && 0 <= py - win.y < win.h {
        RowsApart(win.w, py - win.y, full);
      }
    }
  }

  lemma NoWindow(win: Window, awi: nat, data: seq<Color>, k: nat)
    requires k <= |data| && (win.w <= 0 || win.h <= 0)
    ensures forall px, py :: StreamLayer(win, awi, data)(px, py) == StreamLayer(win, awi, data[..k])(px, py)
  {
  }

  /** A stream below the limit overlays its part of the window. */
  lemma StreamPaints(d: Device, mid: Device, win: Window, awi: nat, data: seq<Color>, k: nat)
    requires win.w < TWO_31 && win.h < TWO_31 && k <= |data|
    requires win.w > 0 ==> awi + |data| <= StreamLimit(win)
    requires Overlaid(d, mid, StreamLayer(win, awi, data[..k]))
    ensures Overlaid(d, Stream(mid, win, awi, data, k), StreamLayer(win, awi, data))
    decreases |data| - k
  {
    assert mid.Valid();
    hide StreamAt, StreamLayer, Overlaid, Device.Plot, StreamCol, StreamRow;
    if k == |data| {
      assert data[..k] == data;
    } else if win.w <= 0 || win.h <= 0 {
      NoWindow(win, awi, data, k);
      OverlaySame(d, mid, StreamLayer(win, awi, data[..k]), StreamLayer(win, awi, data));
    } else {
      var n := awi + k;
      PositionDecodes(win, n);
      var col, row := n % win.w, n / win.w;
      if row >= win.h {
        FullWindow(win, awi, data, k);
        OverlaySame(d, mid, StreamLayer(win, awi, data[..k]), StreamLayer(win, awi, data));
      } else {
        StreamPlots(d, mid, win, awi, data, k, col, row);
        StreamPaints(d, mid.Plot(win.x + col, win.y + row, data[k]), win, awi, data, k + 1);
      }
    }
  }

  // ---- Chunks ----

  function Flatten(chunks: seq<seq<Color>>): seq<Color> {
    if chunks == [] then [] else chunks[0] + Flatten(chunks[1..])
  }

  /** A run of `pushColors` calls after one `setAddrWindow`; the count is kept in 32 bits. */
  function StreamAll(d: Device, win: Window, awi: nat, chunks: seq<seq<Color>>): (r: Device)
    requires d.Valid() && win.w < TWO_31
    ensures r.Valid() && d.SameFrame(r)
    decreases |chunks|
  {
    if chunks == [] then d
    else StreamAll(Stream(d, win, awi, chunks[0], 0), win, (awi + |chunks[0]|) % TWO_32, chunks[1..])
  }

  /** However the pixels are cut into chunks, the window shows their concatenation. */
  lemma {:induction false} ChunksPaintWhole(d: Device, win: Window, awi: nat, chunks: seq<seq<Color>>)
    requires d.Valid() && win.w < TWO_31 && win.h < TWO_31
    requires win.w > 0 ==> awi + |Flatten(chunks)| <= StreamLimit(win)
    ensures Overlaid(d, StreamAll(d, win, awi, chunks), StreamLayer(win, awi, Flatten(chunks)))
    decreases |chunks|
  {
    hide Overlaid, StreamAt, Stream, Over;
    if chunks == [] {
      StreamStarts(d, win, awi, []);
    } else {
      var first, rest := chunks[0], Flatten(chunks[1..]);
      var next := (awi + |first|) % TWO_32;
      var mid, end := Stream(d, win, awi, first, 0), StreamAll(d, win, awi, chunks);
      StreamStarts(d, win, awi, first);
      StreamPaints(d, d, win, awi, first, 0);
      ChunksPaintWhole(mid, win, next, chunks[1..]);
      OverlayTwice(d, mid, end, StreamLayer(win, awi, first), StreamLayer(win, next, rest));
      assert win.w > 0 ==> next == awi + |first| || rest == [];
      StreamsJoin(d, end, win, awi, first, next, rest);
    }
  }

  lemma StreamsJoin(d: Device, end: Device, win: Window, awi: nat, first: seq<Color>, next: nat, rest: seq<Color>)
    requires win.w > 0 ==> next == awi + |first| || rest == []
    requires Overlaid(d, end, Over(StreamLayer(win, next, rest), StreamLayer(win, awi, first)))
    ensures Overlaid(d, end, StreamLayer(win, awi, first + rest))
  {
    OverlaySame(d, end, Over(StreamLayer(win, next, rest), StreamLayer(win, awi, first)),
                StreamLayer(win, awi, first + rest));
  }

  lemma SurplusUnseen(win: Window, data: seq<Color>, image: seq<Color>)
    requires 0 < win.w && 0 < win.h && |image| == win.w * win.h && image <= data
    ensures forall px, py :: StreamLayer(win, 0, data)(px, py) == StreamLayer(win, 0, image)(px, py)
  {
    forall px, py
      ensures StreamLayer(win, 0, data)(px, py) == StreamLayer(win, 0, image)(px, py)
    {
      if 0 <= px - win.x < win.w && 0 <= py - win.y < win.h {
        IndexInside(win.w, win.h, px - win.x, py - win.y);
      }
    }
  }

  /** Streaming a full window, in any chunks and with any surplus below the limit, leaves the buffer one
      `pushImage` of its first w * h pixels leaves. */
  lemma StreamIsImage(d: Device, win: Window, chunks: seq<seq<Color>>, image: seq<Color>, pushed: Device)
    requires d.Valid() && 0 < win.w < TWO_31 && 0 < win.h < TWO_31
    requires |image| == win.w * win.h && image <= Flatten(chunks)
    requires |Flatten(chunks)| <= StreamLimit(win)
    requires Overlaid(d, pushed, StreamLayer(win, 0, image))
    ensures StreamAll(d, win, 0, chunks) == pushed
  {
    hide StreamAll, StreamLayer, Overlaid;
    ChunksPaintWhole(d, win, 0, chunks);
    SurplusUnseen(win, Flatten(chunks), image);
    OverlayDetermines(d, StreamAll(d, win, 0, chunks), pushed,
                      StreamLayer(win, 0, Flatten(chunks)), StreamLayer(win, 0, image));
  }

  // ---- Chunks behind a full window ----

  function Place(win: Window, n: nat): Point
    requires 0 < win.w < TWO_31
  {
    Point(win.x + StreamCol(win, n), win.y + StreamRow(win, n))
  }

  /** One call with `len` pixels from position n on gets to plot p: it gives up at the first ignored position. */
  predicate Hits(win: Window, n: nat, len: nat, p: Point)
    requires 0 < win.w < TWO_31
    decreases len
  {
    len > 0 && !Ignored(win, n) && (Place(win, n) == p || Hits(win, n + 1, len - 1, p))
  }

  /** Some call of a run does. */
  predicate Touches(win: Window, awi: nat, lengths: seq<nat>, p: Point)
    requires 0 < win.w < TWO_31
    decreases |lengths|
  {
    lengths != [] &&
    (Hits(win, awi, lengths[0], p) || Touches(win, (awi + lengths[0]) % TWO_32, lengths[1..], p))
  }

  function Lengths(chunks: seq<seq<Color>>): (r: seq<nat>)
    ensures |r| == |chunks|
  {
    if chunks == [] then [] else [|chunks[0]|] + Lengths(chunks[1..])
  }

  predicate OneColour(data: seq<Color>, c: Color) { forall i :: 0 <= i < |data| ==> data[i] == c }

  lemma SameShows(a: Device, b: Device, p: Point)
    requires a.SameFrame(b)
    ensures a.Shows(p.x, p.y) == b.Shows(p.x, p.y)
  {
  }

  /** A pixel no call gets to keeps its colour; one that some call gets to takes theirs. */
  lemma StreamView(d: Device, win: Window, awi: nat, data: seq<Color>, k: nat, c: Color, p: Point)
    requires d.Valid() && 0 < win.w < TWO_31 && 0 < win.h && k <= |data|
    ensures var r := Stream(d, win, awi, data, k);
            && (!Hits(win, awi + k, |data| - k, p) ==> r.View(p.x, p.y) == d.View(p.x, p.y))
            && (OneColour(data, c) && d.Shows(p.x, p.y) ==>
                  Hits(win, awi + k, |data| - k, p) || d.View(p.x, p.y) == c ==> r.View(p.x, p.y) == c)
    decreases |data| - k
  {
    hide StreamCol, StreamRow, Device.View, Device.Shows, Device.Plot;
    if k < |data| && !Ignored(win, awi + k) {
      var at := Place(win, awi + k);
      d.PlotView(at.x, at.y, data[k], p.x, p.y);
      SameShows(d, d.Plot(at.x, at.y, data[k]), p);
      StreamView(d.Plot(at.x, at.y, data[k]), win, awi, data, k + 1, c, p);
    }
  }

  lemma {:induction false} RunView(d: Device, win: Window, awi: nat, chunks: seq<seq<Color>>, c: Color, p: Point)
    requires d.Valid() && 0 < win.w < TWO_31 && 0 < win.h
    ensures var r := StreamAll(d, win, awi, chunks);
            && (!Touches(win, awi, Lengths(chunks), p) ==> r.View(p.x, p.y) == d.View(p.x, p.y))
            && ((forall i :: 0 <= i < |chunks| ==> OneColour(chunks[i], c)) && d.Shows(p.x, p.y) ==>
                  Touches(win, awi, Lengths(chunks), p) || d.View(p.x, p.y) == c ==> r.View(p.x, p.y) == c)
    decreases |chunks|
  {
    hide Stream, OneColour, Hits, Device.View, Device.Shows;
    if chunks != [] {
      var mid := Stream(d, win, awi, chunks[0], 0);
      StreamView(d, win, awi, chunks[0], 0, c, p);
      SameShows(d, mid, p);
      RunView(mid, win, (awi + |chunks[0]|) % TWO_32, chunks[1..], c, p);
      assert Lengths(chunks)[1..] == Lengths(chunks[1..]);
    }
  }

  /** Calls of these lengths, from this position on, leave the device as it is whatever they carry. */
  ghost predicate Leaves(d: Device, win: Window, awi: nat, lengths: seq<nat>)
    requires d.Valid() && win.w < TWO_31
  {
    forall chunks :: Lengths(chunks) == lengths ==> StreamAll(d, win, awi, chunks) == d
  }

  function Coloured(lengths: seq<nat>, c: Color): (chunks: seq<seq<Color>>)
    ensures Lengths(chunks) == lengths
    ensures forall i :: 0 <= i < |chunks| ==> OneColour(chunks[i], c)
  {
    if lengths == [] then []
    else
      var rest := Coloured(lengths[1..], c);
      assert ([seq(lengths[0], _ => c)] + rest)[1..] == rest;
      [seq(lengths[0], _ => c)] + rest
  }

  /** That is so exactly when none of them gets to a pixel the device shows. */
  lemma ChangesNothing(d: Device, win: Window, awi: nat, lengths: seq<nat>)
    requires d.Valid() && 0 < win.w < TWO_31 && 0 < win.h
    ensures Leaves(d, win, awi, lengths) <==> forall p: Point :: d.Shows(p.x, p.y) ==> !Touches(win, awi, lengths, p)
  {
    hide StreamAll, Touches;
    if p: Point :| d.Shows(p.x, p.y) && Touches(win, awi, lengths, p) {
      var c: Color := if d.View(p.x, p.y) == 0 then 1 else 0;
      RunView(d, win, awi, Coloured(lengths, c), c, p);
    } else {
      forall chunks | Lengths(chunks) == lengths
        ensures StreamAll(d, win, awi, chunks) == d
      {
        var r := StreamAll(d, win, awi, chunks);
        forall x, y
          ensures r.View(x, y) == d.View(x, y)
        {
          if d.Shows(x, y) {
            assert !Touches(win, awi, lengths, Point(x, y));
            RunView(d, win, awi, chunks, 0, Point(x, y));
          }
        }
        DeviceExtensional(r, d);
      }
    }
  }

  /** Every call that carries a pixel starts at an ignored position. */
  predicate AllIgnored(win: Window, awi: nat, lengths: seq<nat>)
    requires 0 < win.w < TWO_31
    decreases |lengths|
  {
    lengths == [] ||
    ((lengths[0] == 0 || Ignored(win, awi)) && AllIgnored(win, (awi + lengths[0]) % TWO_32, lengths[1..]))
  }

  lemma {:induction false} IgnoredTouchNothing(win: Window, awi: nat, lengths: seq<nat>, p: Point)
    requires 0 < win.w < TWO_31 && AllIgnored(win, awi, lengths)
    ensures !Touches(win, awi, lengths, p)
    decreases |lengths|
  {
    hide Ignored;
    if lengths != [] {
      IgnoredTouchNothing(win, (awi + lengths[0]) % TWO_32, lengths[1..], p);
    }
  }

  lemma {:induction false} FirstTouched(win: Window, awi: nat, lengths: seq<nat>) returns (n: nat)
    requires 0 < win.w < TWO_31 && !AllIgnored(win, awi, lengths)
    ensures Touches(win, awi, lengths, Place(win, n))
    decreases |lengths|
  {
    hide Ignored, Place;
    if lengths[0] > 0 && !Ignored(win, awi) {
      n := awi;
    } else {
      n := FirstTouched(win, (awi + lengths[0]) % TWO_32, lengths[1..]);
    }
  }

  lemma PlaceInside(win: Window, n: nat)
    requires 2 <= win.w < TWO_31
    ensures Place(win, n).x >= win.x && Place(win, n).y >= win.y
  {
    PositionDecodes(win, n % TWO_32);
  }

  /** Chunks that all start at ignored positions change no device. For a window in the quadrant devices can show,
      at least two pixels wide, only those do. */
  lemma SurplusChunks(win: Window, awi: nat, lengths: seq<nat>)
    requires 0 < win.w < TWO_31 && 0 < win.h
    ensures AllIgnored(win, awi, lengths) ==> forall d: Device :: d.Valid() ==> Leaves(d, win, awi, lengths)
    ensures win.x >= 0 && win.y >= 0 && win.w >= 2 ==>
              ((forall d: Device :: d.Valid() ==> Leaves(d, win, awi, lengths)) <==> AllIgnored(win, awi, lengths))
  {
    hide Leaves, Touches;
    if AllIgnored(win, awi, lengths) {
      forall d: Device | d.Valid()
        ensures Leaves(d, win, awi, lengths)
      {
        forall p: Point
          ensures !Touches(win, awi, lengths, p)
        {
          IgnoredTouchNothing(win, awi, lengths, p);
        }
        ChangesNothing(d, win, awi, lengths);
      }
    } else if win.x >= 0 && win.y >= 0 && win.w >= 2 {
      var n := FirstTouched(win, awi, lengths);
      PlaceInside(win, n);
      var w, h := Place(win, n).x + 1, Place(win, n).y + 1;
      var d := Device(Canvas(w, h, seq(w * h, _ => 0)), false, w, h);
      assert d.Shows(Place(win, n).x, Place(win, n).y);
      ChangesNothing(d, win, awi, lengths);
    }
  }

  lemma FullWindowIgnores(d: Device, x: int, y: int, data: seq<Color>)
    requires d.Valid()
    ensures Stream(d, Window(x, y, 2, 2), 4, data, 0) == d
  {
    SurplusIgnored(Window(x, y, 2, 2), 4);
  }

  lemma FirstPosition(d: Device, x: int, y: int, c: Color)
    requires d.Valid()
    ensures Stream(d, Window(x, y, 2, 2), 0, [c], 0) == d.Plot(x, y, c)
  {
    var win := Window(x, y, 2, 2);
    PositionDecodes(win, 0);
    assert Stream(d.Plot(x, y, c), win, 0, [c], 1) == d.Plot(x, y, c);
  }

  lemma TwoChunks(d: Device, win: Window, a: seq<Color>, b: seq<Color>)
    requires d.Valid() && win.w < TWO_31
    ensures StreamAll(d, win, 0, [a]) == Stream(d, win, 0, a, 0)
    ensures StreamAll(d, win, 0, [a, b]) == Stream(Stream(d, win, 0, a, 0), win, |a| % TWO_32, b, 0)
  {
    hide Stream;
    var mid, next := Stream(d, win, 0, a, 0), |a| % TWO_32;
    assert [a][1..] == [] && [a, b][1..] == [b] && [b][1..] == [];
    assert StreamAll(mid, win, next, [b]) == Stream(mid, win, next, b, 0);
    assert StreamAll(d, win, 0, [a, b]) == StreamAll(mid, win, next, [b]);
  }

  /** A wrap inside one call repaints nothing: it gave up at its first pixel. */
  lemma WrapInsideChunk(d: Device, x: int, y: int, image: seq<Color>, data: seq<Color>)
    requires d.Valid() && |image| == 4
    ensures StreamAll(d, Window(x, y, 2, 2), 0, [image, data]) == StreamAll(d, Window(x, y, 2, 2), 0, [image])
  {
    hide Stream, StreamAll;
    var win := Window(x, y, 2, 2);
    TwoChunks(d, win, image, data);
    FullWindowIgnores(Stream(d, win, 0, image, 0), x, y, data);
  }

  lemma ThreeChunks(d: Device, win: Window, a: seq<Color>, b: seq<Color>, c: seq<Color>)
    requires d.Valid() && win.w < TWO_31 && |a| + |b| == TWO_32
    ensures StreamAll(d, win, 0, [a, b, c]) == Stream(StreamAll(d, win, 0, [a, b]), win, 0, c, 0)
  {
    hide Stream;
    var mid, next := Stream(d, win, 0, a, 0), |a| % TWO_32;
    var end := Stream(mid, win, next, b, 0);
    TwoChunks(d, win, a, b);
    assert [a, b, c][1..] == [b, c] && [b, c][1..] == [c] && [c][1..] == [];
    assert (next + |b|) % TWO_32 == 0;
    assert StreamAll(end, win, 0, [c]) == Stream(end, win, 0, c, 0);
    assert StreamAll(mid, win, next, [b, c]) == StreamAll(end, win, 0, [c]);
    assert StreamAll(d, win, 0, [a, b, c]) == StreamAll(mid, win, next, [b, c]);
  }

  /** Past the limit a run can repaint the window: 2^32 - 4 ignored pixels bring a full 2 by 2 window back to its
      first position, where the next call plots. */
  lemma RepaintsAfterWrap(d: Device, x: int, y: int, image: seq<Color>, filler: seq<Color>, c: Color)
    requires d.Valid() && |image| == 4 && |filler| == TWO_32 - 4
    ensures var win := Window(x, y, 2, 2);
            && StreamAll(d, win, 0, [image, filler]) == StreamAll(d, win, 0, [image])
            && StreamAll(d, win, 0, [image, filler, [c]]) == StreamAll(d, win, 0, [image]).Plot(x, y, c)
  {
    hide Stream, StreamAll;
    var win := Window(x, y, 2, 2);
    WrapInsideChunk(d, x, y, image, filler);
    ThreeChunks(d, win, image, filler, [c]);
    FirstPosition(StreamAll(d, win, 0, [image]), x, y, c);
  }

  // ---- Sprites ----

  /** A whole canvas placed with its corner at (x, y). */
  function CanvasLayer(x: int, y: int, cv: Canvas): Layer
    requires cv.Valid()
  {
    (px, py) => if cv.Inside(px - x, py - y) then Some(cv.At(px - x, py - y)) else None
  }

  lemma ImageIsCanvas(x: int, y: int, cv: Canvas, px: int, py: int)
    requires cv.Valid()
    ensures StreamAt(Window(x, y, cv.w, cv.h), 0, cv.px, px, py) == CanvasLayer(x, y, cv)(px, py)
  {
    if cv.Inside(px - x, py - y) {
      IndexInside(cv.w, cv.h, px - x, py - y);
      var i := (py - y) * cv.w + (px - x);
      assert 0 <= i < |cv.px|;
      assert cv.At(px - x, py - y) == cv.px[i];
      assert StreamAt(Window(x, y, cv.w, cv.h), 0, cv.px, px, py) == Some(cv.px[i]);
      assert CanvasLayer(x, y, cv)(px, py) == Some(cv.px[i]);
    }
  }

  function Clip(layer: Layer, x: int, y: int, w: int, h: int): Layer {
    (px, py) => if 0 <= px - x < w && 0 <= py - y < h then layer(px, py) else None
  }

  /** A sprite's buffer as a drawing surface. */
  function Sprite(cv: Canvas): Device { Device(cv, false, 0, 0) }

  /** Pushing an inner sprite into an outer one and that onto a display shows what pushing the outer one
      and then painting the inner one at the summed offset, clipped to the outer one, shows. The display
      may be mounted either way up. */
  lemma NestedSprites(outer: Canvas, outer': Canvas, inner: Canvas, ix: int, iy: int, ox: int, oy: int,
                      screen: Device, nested: Device, below: Device, flat: Device)
    requires outer.Valid() && inner.Valid() && outer'.Valid()
    requires Overlaid(Sprite(outer), Sprite(outer'), CanvasLayer(ix, iy, inner))
    requires Overlaid(screen, nested, CanvasLayer(ox, oy, outer'))
    requires Overlaid(screen, below, CanvasLayer(ox, oy, outer))
    requires Overlaid(below, flat, Clip(CanvasLayer(ox + ix, oy + iy, inner), ox, oy, outer.w, outer.h))
    ensures nested == flat
  {
    var upper := Clip(CanvasLayer(ox + ix, oy + iy, inner), ox, oy, outer.w, outer.h);
    var lower := CanvasLayer(ox, oy, outer);
    OverlayTwice(screen, below, flat, lower, upper);
    forall px, py
      ensures CanvasLayer(ox, oy, outer')(px, py) == Over(upper, lower)(px, py)
    {
      var x, y := px - ox, py - oy;
      assert Sprite(outer').View(x, y) == Shade(Sprite(outer), CanvasLayer(ix, iy, inner), x, y);
      assert Sprite(outer').View(x, y) == outer'.At(x, y) && Sprite(outer).View(x, y) == outer.At(x, y);
    }
    OverlayDetermines(screen, nested, flat, CanvasLayer(ox, oy, outer'), Over(upper, lower));
  }
}
