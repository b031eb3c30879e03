/** Geometry of the device window: bezel, nubs, the "..." opener, and the overlay cards.

    Coordinates are window points. The source computes nub positions in single-precision floats; here
    they are exact reals truncated to int, which is what the documented arithmetic bound speaks about.
 */
module WindowLayout {
  import opened CLang

  const BEZEL_MARGIN := 26
  const NUB_PROTRUDE := 14
  const NUB_THICK := 12
  const NUB_LONG := 36
  const HIT_INFLATE := 6
  const MAX_LAYOUT_BUTTONS := 8
  const PITCH := NUB_LONG + 2 * HIT_INFLATE

  const PANEL_MARGIN := 12
  const PANEL_PAD := 12
  const PANEL_GAP := 8
  const BAT_BAR_W := 150
  const BAT_BAR_H := 22
  const PANEL_BTN_W := 56
  const PANEL_BTN_H := 34
  const PANEL_PCT_W := 4 * 6 * 2
  const PANEL_PCT_H := 7 * 2
  const PANEL_PCT_LEAD := 8
  const PANEL_PCT_GAP := PANEL_PCT_W + PANEL_PCT_LEAD
  const PANEL_CARD_W :=
    PANEL_PAD + BAT_BAR_W + PANEL_PCT_GAP + PANEL_BTN_W + PANEL_GAP + PANEL_BTN_W + PANEL_GAP + PANEL_BTN_W + PANEL_PAD
  const PANEL_CARD_H := PANEL_PAD + PANEL_BTN_H + PANEL_PAD
  const HELP_CARD_PAD := 16

  datatype Action = Primary | Secondary | Pwr | Gpio

  datatype Edge = Right | Left | Top | Bottom {
    predicate Vertical() { Left? || Right? }
  }

  /** `key` 0 is "no shortcut"; `pos` below zero asks for auto-stacking. */
  datatype Button = Button(action: Action, gpio: int, key: int, edge: Edge, pos: real, activeLow: bool)

  datatype Board = Board(width: int, height: int, hasRotation: bool, hasBattery: bool,
                         buttons: seq<Button>)

  datatype WinRect = WinRect(x: int, y: int, w: int, h: int) {
    predicate Contains(px: int, py: int) {
      px >= x && px < x + w && py >= y && py < y + h
    }

    function Inflate(by_: int): WinRect {
      WinRect(x - by_, y - by_, w + 2 * by_, h + 2 * by_)
    }
  }

  const NO_RECT := WinRect(0, 0, 0, 0)

  datatype Nub = Nub(body: WinRect, hit: WinRect, button: nat, edge: Edge)

  datatype Layout = Layout(window: WinRect, screen: WinRect, moreNub: WinRect, nubs: seq<Nub>)

  /** No point is in both. */
  ghost predicate Disjoint(a: WinRect, b: WinRect) {
    forall x, y :: !(a.Contains(x, y) && b.Contains(x, y))
  }

  /** Every point of `inner` is in `outer`. */
  ghost predicate Nested(inner: WinRect, outer: WinRect) {
    forall x, y :: inner.Contains(x, y) ==> outer.Contains(x, y)
  }

  // ---- One edge ----

  /** The float-to-int cast. */
  function Trunc(r: real): int {
    if r >= 0.0 then r.Floor else -((-r).Floor)
  }

  function Clampf(v: real, lo: real, hi: real): real {
    if v < lo then lo else if v > hi then hi else v
  }

  function Clampi(v: int, lo: int, hi: int): int {
    if lo > hi then lo else if v < lo then lo else if v > hi then hi else v
  }

  function EdgeMargin(hasButtons: bool): int {
    BEZEL_MARGIN + (if hasButtons then NUB_PROTRUDE else 0)
  }

  /** The length of edge n auto nubs need to keep their hit rects apart. */
  function SpanOf(n: int): int { (n - 1) * PITCH + NUB_LONG }

  /** Where the idx-th of n auto-stacked nubs starts along its edge. */
  function AutoStart(idx: int, n: int, origin: int, length: int): int
    requires n > 0
  {
    var slice := 0.6 * length as real / n as real;
    if slice >= PITCH as real then
      var rangeStart := origin as real + 0.2 * length as real;
      var rangeLen := 0.6 * length as real;
      var center := Trunc(rangeStart + slice * (idx as real + 0.5));
      Clampi(center - NUB_LONG / 2, Trunc(rangeStart), Trunc(rangeStart + rangeLen) - NUB_LONG)
    else if SpanOf(n) <= length then
      origin + TruncDiv(length - SpanOf(n), 2) + idx * PITCH
    else
      var slot := length as real / n as real;
      var center := Trunc(origin as real + slot * (idx as real + 0.5));
      Clampi(center - NUB_LONG / 2, origin, origin + length - NUB_LONG)
  }

  lemma SliceLength(n: int, length: int)
    requires n > 0
    ensures 0.6 * length as real / n as real >= PITCH as real <==> 6 * length >= 10 * PITCH * n
  {
    var s := 0.6 * length as real / n as real;
    assert s * n as real == 0.6 * length as real;
    if s >= PITCH as real {
      assert s * n as real >= PITCH as real * n as real;
    }
    if s < PITCH as real {
      assert s * n as real < PITCH as real * n as real;
    }
  }

  /** The centre of slice idx of the middle 60% of the edge. */
  function SliceCenter(idx: int, n: int, origin: int, length: int): int
    requires n > 0
  {
    (origin as real + 0.2 * length as real + 0.6 * length as real / n as real * (idx as real + 0.5)).Floor
  }

  /** The clustered band: every nub starts 18 points before its slice's centre, clear of both clamps. */
  lemma ClusterStart(idx: int, n: int, origin: int, length: int)
    requires 0 <= idx < n && origin >= 0 && 6 * length >= 10 * PITCH * n
    ensures AutoStart(idx, n, origin, length) == SliceCenter(idx, n, origin, length) - NUB_LONG / 2
    ensures origin <= AutoStart(idx, n, origin, length) <= origin + length - NUB_LONG
  {
    SliceLength(n, length);
    var s := 0.6 * length as real / n as real;
    var low, band, offset := origin as real + 0.2 * length as real, 0.6 * length as real, s * (idx as real + 0.5);
    SliceInBand(s, idx, n, band);
    CentreClear(low, band, offset);
    assert low + band <= (origin + length) as real;
  }

  lemma SliceInBand(s: real, idx: int, n: int, band: real)
    requires 0 <= idx < n && s >= PITCH as real && s == band / n as real
    ensures 24.0 <= s * (idx as real + 0.5) <= band - 24.0
  {
    assert s * n as real == band;
    ScaleMonotone(s, 0.5, idx as real + 0.5);
    ScaleMonotone(s, idx as real + 0.5, n as real - 0.5);
    assert s * (n as real - 0.5) == s * n as real - s * 0.5;
    assert s * 0.5 >= 24.0;
  }

  /** A centre 24 points inside a band: neither clamp engages. */
  lemma CentreClear(low: real, band: real, offset: real)
    requires low >= 0.0 && 24.0 <= offset <= band - 24.0
    ensures low.Floor + NUB_LONG / 2 <= (low + offset).Floor
    ensures (low + offset).Floor + NUB_LONG / 2 <= (low + band).Floor
  {
  }

  lemma ScaleMonotone(s: real, a: real, b: real)
    requires s >= 0.0 && a <= b
    ensures s * a <= s * b
  {
    assert s * (b - a) >= 0.0;
    assert s * (b - a) == s * b - s * a;
  }

  lemma StepApart(s: real, i: int, j: int)
    requires s >= 0.0 && i < j
    ensures s * (j as real + 0.5) >= s * (i as real + 0.5) + s
  {
    ScaleMonotone(s, i as real + 1.5, j as real + 0.5);
    assert s * (i as real + 1.5) == s * (i as real + 0.5) + s;
  }

  lemma FloorsApart(u: real, v: real, d: int)
    requires v >= u + d as real
    ensures v.Floor >= u.Floor + d
  {
  }

  lemma CentersApart(i: int, j: int, n: int, origin: int, length: int)
    requires 0 <= i < j < n && 6 * length >= 10 * PITCH * n
    ensures SliceCenter(j, n, origin, length) >= SliceCenter(i, n, origin, length) + PITCH
  {
    SliceLength(n, length);
    var s, low := 0.6 * length as real / n as real, origin as real + 0.2 * length as real;
    StepApart(s, i, j);
    FloorsApart(low + s * (i as real + 0.5), low + s * (j as real + 0.5), PITCH);
  }

  lemma ClusterGap(i: int, j: int, n: int, origin: int, length: int)
    requires 0 <= i < j < n && origin >= 0 && 6 * length >= 10 * PITCH * n
    ensures AutoStart(j, n, origin, length) >= AutoStart(i, n, origin, length) + PITCH
  {
    ClusterStart(i, n, origin, length);
    ClusterStart(j, n, origin, length);
    CentersApart(i, j, n, origin, length);
  }

  /** Where autos can start at all. */
  lemma AutoBounds(idx: int, n: int, origin: int, length: int)
    requires 0 <= idx < n && origin >= 0
    ensures length >= NUB_LONG ==> origin <= AutoStart(idx, n, origin, length) <= origin + length - NUB_LONG
    ensures length < NUB_LONG ==> AutoStart(idx, n, origin, length) == origin
  {
    SliceLength(n, length);
    if 6 * length >= 10 * PITCH * n {
      ClusterStart(idx, n, origin, length);
    }
  }

  /** The documented bound is enough: n autos keep their hit rects apart, in order, on the edge. */
  lemma AutosSpaced(i: int, j: int, n: int, origin: int, length: int)
    requires 0 <= i < j < n && origin >= 0 && SpanOf(n) <= length
    ensures AutoStart(j, n, origin, length) >= AutoStart(i, n, origin, length) + PITCH
  {
    SliceLength(n, length);
    if 6 * length >= 10 * PITCH * n {
      ClusterGap(i, j, n, origin, length);
    }
  }

  /** ... and it is needed: on a shorter edge some neighbours overlap. */
  lemma ShortEdgeOverlaps(n: int, origin: int, length: int) returns (i: int)
    requires n >= 2 && origin >= 0 && SpanOf(n) > length
    ensures 0 <= i < n - 1
    ensures AutoStart(i + 1, n, origin, length) < AutoStart(i, n, origin, length) + PITCH
  {
    hide AutoStart;
    AutoBounds(0, n, origin, length);
    AutoBounds(n - 1, n, origin, length);
    i := 0;
    while i < n - 1
      invariant 0 <= i <= n - 1
      invariant AutoStart(i, n, origin, length) >= AutoStart(0, n, origin, length) + i * PITCH
    {
      if AutoStart(i + 1, n, origin, length) < AutoStart(i, n, origin, length) + PITCH {
        return;
      }
      i := i + 1;
    }
    assert false;
  }

  // ---- The whole window ----

  function Count(board: Board): nat {
    if |board.buttons| > MAX_LAYOUT_BUTTONS then MAX_LAYOUT_BUTTONS else |board.buttons|
  }

  function ScaleOf(scale: int): int { if scale < 1 then 1 else scale }

  predicate HasEdge(board: Board, edge: Edge) {
    exists i :: 0 <= i < Count(board) && board.buttons[i].edge == edge
  }

  function Margin(board: Board, edge: Edge): int { EdgeMargin(HasEdge(board, edge)) }

  predicate IsAuto(b: Button) { b.pos < 0.0 }

  /** Autos among the first i buttons of an edge. */
  function AutosBefore(buttons: seq<Button>, i: nat, edge: Edge): nat
    requires i <= |buttons|
  {
    if i == 0 then 0
    else AutosBefore(buttons, i - 1, edge) +
           (if buttons[i - 1].edge == edge && IsAuto(buttons[i - 1]) then 1 else 0)
  }

  function Autos(board: Board, edge: Edge): nat { AutosBefore(board.buttons, Count(board), edge) }

  function ScreenOf(board: Board, scale: int): WinRect {
    WinRect(Margin(board, Left), Margin(board, Top), board.width * ScaleOf(scale), board.height * ScaleOf(scale))
  }

  function WindowOf(board: Board, scale: int): WinRect {
    var s := ScreenOf(board, scale);
    WinRect(0, 0, s.w + s.x + Margin(board, Right), s.h + s.y + Margin(board, Bottom))
  }

  function MoreNubOf(board: Board, scale: int): WinRect {
    var w := WindowOf(board, scale);
    if board.hasBattery || board.hasRotation then WinRect(w.w - NUB_LONG, w.h - NUB_THICK, NUB_LONG, NUB_THICK)
    else NO_RECT
  }

  function OriginOf(board: Board, scale: int, edge: Edge): int {
    if edge.Vertical() then ScreenOf(board, scale).y else ScreenOf(board, scale).x
  }

  function LengthOf(board: Board, scale: int, edge: Edge): int {
    if edge.Vertical() then ScreenOf(board, scale).h else ScreenOf(board, scale).w
  }

  /** How far the last bottom auto reaches into the "..." nub. */
  function Overrun(board: Board, scale: int): int
    requires Autos(board, Bottom) > 0
  {
    AutoStart(Autos(board, Bottom) - 1, Autos(board, Bottom), OriginOf(board, scale, Bottom), LengthOf(board, scale, Bottom))
      + NUB_LONG + HIT_INFLATE - MoreNubOf(board, scale).x
  }

  lemma AutosCounted(buttons: seq<Button>, i: nat, j: nat, edge: Edge)
    requires i <= j <= |buttons|
    ensures AutosBefore(buttons, i, edge) <= AutosBefore(buttons, j, edge)
    ensures i < j && buttons[i].edge == edge && IsAuto(buttons[i]) ==>
              AutosBefore(buttons, i, edge) < AutosBefore(buttons, j, edge)
    decreases j - i
  {
    if i < j {
      AutosCounted(buttons, i, j - 1, edge);
    }
  }

  function NubStart(board: Board, scale: int, i: nat): int
    requires i < Count(board)
  {
    var b := board.buttons[i];
    var origin, length := OriginOf(board, scale, b.edge), LengthOf(board, scale, b.edge);
    if IsAuto(b) then
      AutosCounted(board.buttons, i, Count(board), b.edge);
      var start := AutoStart(AutosBefore(board.buttons, i, b.edge), Autos(board, b.edge), origin, length);
      if b.edge == Bottom && MoreNubOf(board, scale).w > 0 && Overrun(board, scale) > 0
      then Clampi(start - Overrun(board, scale), HIT_INFLATE, start)
      else start
    else FixedStart(b.pos, origin, length)
  }

  function PartOf(pos: real, length: int): real { Clampf(pos, 0.0, 1.0) * length as real }

  function FixedStart(pos: real, origin: int, length: int): int {
    var center := Trunc(origin as real + PartOf(pos, length));
    Clampi(center - NUB_LONG / 2, origin, origin + length - NUB_LONG)
  }

  function BodyAt(window: WinRect, edge: Edge, start: int): WinRect {
    match edge
    case Left => WinRect(HIT_INFLATE, start, NUB_THICK, NUB_LONG)
    case Right => WinRect(window.w - NUB_THICK - HIT_INFLATE, start, NUB_THICK, NUB_LONG)
    case Top => WinRect(start, HIT_INFLATE, NUB_LONG, NUB_THICK)
    case Bottom => WinRect(start, window.h - NUB_THICK - HIT_INFLATE, NUB_LONG, NUB_THICK)
  }

  function NubAt(board: Board, scale: int, i: nat): Nub
    requires i < Count(board)
  {
    var body := BodyAt(WindowOf(board, scale), board.buttons[i].edge, NubStart(board, scale, i));
    Nub(body, body.Inflate(HIT_INFLATE), i, board.buttons[i].edge)
  }

  function LayoutOf(board: Board, scale: int): Layout {
    Layout(WindowOf(board, scale), ScreenOf(board, scale), MoreNubOf(board, scale),
           seq(Count(board), i requires 0 <= i < Count(board) => NubAt(board, scale, i)))
  }

  lemma CoversEdges<V>(m: map<Edge, V>)
    requires Right in m && Left in m && Top in m && Bottom in m
    ensures forall e: Edge :: e in m
  {
    forall e: Edge
      ensures e in m
    {
      match e case Right => case Left => case Top => case Bottom =>
    }
  }

  /** First pass: which edges carry a nub at all. */
  method MarkEdges(board: Board) returns (hasEdge: map<Edge, bool>)
    ensures forall e: Edge :: e in hasEdge && hasEdge[e] == HasEdge(board, e)
  {
    hasEdge := map[Right := false, Left := false, Top := false, Bottom := false];
    CoversEdges(hasEdge);
    var i := 0;
    while i < Count(board)
      invariant 0 <= i <= Count(board)
      invariant forall e: Edge :: e in hasEdge &&
                  (hasEdge[e] <==> exists k :: 0 <= k < i && board.buttons[k].edge == e)
    {
      hasEdge := hasEdge[board.buttons[i].edge := true];
      i := i + 1;
    }
  }

  /** Second pass: how many autos share each edge. */
  method CountAutos(board: Board) returns (autoTotal: map<Edge, nat>)
    ensures forall e: Edge :: e in autoTotal && autoTotal[e] == Autos(board, e)
  {
    autoTotal := map[Right := 0, Left := 0, Top := 0, Bottom := 0];
    CoversEdges(autoTotal);
    var i := 0;
    while i < Count(board)
      invariant 0 <= i <= Count(board)
      invariant forall e: Edge :: e in autoTotal && autoTotal[e] == AutosBefore(board.buttons, i, e)
    {
      if board.buttons[i].pos < 0.0 {
        autoTotal := autoTotal[board.buttons[i].edge := autoTotal[board.buttons[i].edge] + 1];
      }
      i := i + 1;
    }
  }

  /** One auto nub of the last pass: its slot, slid left when the bottom stack overruns the opener. */
  method PlaceAuto(idx: nat, n: nat, origin: int, length: int, bottom: bool, more: WinRect) returns (start: int)
    requires idx < n
    ensures var raw := AutoStart(idx, n, origin, length);
            var overrun := AutoStart(n - 1, n, origin, length) + NUB_LONG + HIT_INFLATE - more.x;
            start == if bottom && more.w > 0 && overrun > 0 then Clampi(raw - overrun, HIT_INFLATE, raw) else raw
  {
    start := AutoStart(idx, n, origin, length);
    if bottom && more.w > 0 {
      var overrun := AutoStart(n - 1, n, origin, length) + NUB_LONG + HIT_INFLATE - more.x;
      if overrun > 0 {
        start := Clampi(start - overrun, HIT_INFLATE, start);
      }
    }
  }

  /** One nub with a position of its own, clamped to its edge. */
  method PlaceFixed(pos: real, origin: int, length: int) returns (start: int)
    ensures start == FixedStart(pos, origin, length)
  {
    var p := Clampf(pos, 0.0, 1.0);
    var center := Trunc(origin as real + p * length as real);
    start := Clampi(center - NUB_LONG / 2, origin, origin + length - NUB_LONG);
  }

  /** One nub of the last pass. */
  method PlaceOne(board: Board, scale: int, i: nat, idx: nat, n: nat, screen: WinRect, more: WinRect) returns (start: int)
    requires i < Count(board)
    requires screen == ScreenOf(board, scale) && more == MoreNubOf(board, scale)
    requires idx == AutosBefore(board.buttons, i, board.buttons[i].edge) && n == Autos(board, board.buttons[i].edge)
    requires IsAuto(board.buttons[i]) ==> idx < n
    ensures start == NubStart(board, scale, i)
  {
    hide AutoStart, FixedStart;
    var edge := board.buttons[i].edge;
    var vertical := edge == Left || edge == Right;
    var origin := if vertical then screen.y else screen.x;
    var length := if vertical then screen.h else screen.w;
    if board.buttons[i].pos < 0.0 {
      start := PlaceAuto(idx, n, origin, length, edge == Bottom, more);
    } else {
      start := PlaceFixed(board.buttons[i].pos, origin, length);
    }
  }

  /** The last pass hands out positions with a running index per edge. */
  method PlaceNubs(board: Board, scale: int, autoTotal: map<Edge, nat>, screen: WinRect, window: WinRect, more: WinRect)
    returns (nubs: seq<Nub>)
    requires forall e: Edge :: e in autoTotal && autoTotal[e] == Autos(board, e)
    requires screen == ScreenOf(board, scale) && window == WindowOf(board, scale) && more == MoreNubOf(board, scale)
    ensures nubs == LayoutOf(board, scale).nubs
  {
    hide NubStart, ScreenOf, WindowOf, MoreNubOf;
    var autoIndex := map[Right := 0, Left := 0, Top := 0, Bottom := 0];
    CoversEdges(autoIndex);
    nubs := [];
    var i := 0;
    while i < Count(board)
      invariant 0 <= i <= Count(board) && |nubs| == i
      invariant forall e: Edge :: e in autoIndex && autoIndex[e] == AutosBefore(board.buttons, i, e)
      invariant forall k :: 0 <= k < i ==> nubs[k] == NubAt(board, scale, k)
    {
      var edge := board.buttons[i].edge;
      AutosCounted(board.buttons, i, Count(board), edge);
      var start := PlaceOne(board, scale, i, autoIndex[edge], autoTotal[edge], screen, more);
      if board.buttons[i].pos < 0.0 {
        autoIndex := autoIndex[edge := autoIndex[edge] + 1];
      }
      var body := BodyAt(window, edge, start);
      nubs := nubs + [Nub(body, body.Inflate(HIT_INFLATE), i, edge)];
      i := i + 1;
    }
  }

  method LayoutWindow(board: Board, scale: int) returns (l: Layout)
    ensures l == LayoutOf(board, scale)
  {
    var sc := if scale < 1 then 1 else scale;
    var hasEdge := MarkEdges(board);
    var left, right := EdgeMargin(hasEdge[Left]), EdgeMargin(hasEdge[Right]);
    var top, bottom := EdgeMargin(hasEdge[Top]), EdgeMargin(hasEdge[Bottom]);
    var sw, sh := board.width * sc, board.height * sc;
    var screen := WinRect(left, top, sw, sh);
    var window := WinRect(0, 0, sw + left + right, sh + top + bottom);
    var more := NO_RECT;
    if board.hasBattery || board.hasRotation {
      more := WinRect(window.w - NUB_LONG, window.h - NUB_THICK, NUB_LONG, NUB_THICK);
    }
    var autoTotal := CountAutos(board);
    var nubs := PlaceNubs(board, scale, autoTotal, screen, window, more);
    l := Layout(window, screen, more, nubs);
  }

  // ---- Click targets ----

  predicate AutoAt(board: Board, i: nat) {
    i < Count(board) && IsAuto(board.buttons[i])
  }

  /** The documented bound for an edge. */
  predicate EdgeFits(board: Board, scale: int, edge: Edge) {
    Autos(board, edge) == 0 || SpanOf(Autos(board, edge)) <= LengthOf(board, scale, edge)
  }

  /** The bottom stack is moved left by its overrun, never onto the window's edge. */
  lemma SlideNeverClamps(board: Board, scale: int, i: nat)
    requires AutoAt(board, i) && board.buttons[i].edge == Bottom && MoreNubOf(board, scale).w > 0
    requires EdgeFits(board, scale, Bottom)
    ensures Autos(board, Bottom) > 0
    ensures var start := AutoStart(AutosBefore(board.buttons, i, Bottom), Autos(board, Bottom),
                                   OriginOf(board, scale, Bottom), LengthOf(board, scale, Bottom));
            && NubStart(board, scale, i) == (if Overrun(board, scale) > 0 then start - Overrun(board, scale) else start)
            && (Overrun(board, scale) > 0 ==> start - Overrun(board, scale) > HIT_INFLATE)
  {
    hide AutoStart, AutosBefore, Clampi;
    AutosCounted(board.buttons, i, Count(board), Bottom);
    var n, idx := Autos(board, Bottom), AutosBefore(board.buttons, i, Bottom);
    var origin, length := OriginOf(board, scale, Bottom), LengthOf(board, scale, Bottom);
    SlideRoom(idx, n, origin, length, MoreNubOf(board, scale).x);
    NotClamped(AutoStart(idx, n, origin, length) - Overrun(board, scale), HIT_INFLATE, AutoStart(idx, n, origin, length));
  }

  lemma NotClamped(v: int, lo: int, hi: int)
    ensures lo <= v <= hi ==> Clampi(v, lo, hi) == v
  {
  }

  /** The overrun never reaches as far left as the first slot. */
  lemma SlideRoom(idx: int, n: int, origin: int, length: int, more: int)
    requires 0 <= idx < n && origin >= BEZEL_MARGIN && SpanOf(n) <= length
    requires more >= origin + length + BEZEL_MARGIN - NUB_LONG
    ensures var overrun := AutoStart(n - 1, n, origin, length) + NUB_LONG + HIT_INFLATE - more;
            overrun > 0 ==> AutoStart(idx, n, origin, length) - overrun > HIT_INFLATE
  {
    hide AutoStart;
    if 6 * length >= 10 * PITCH * n {
      LastClusterStart(n, origin, length);
    } else {
      PackedStart(idx, n, origin, length);
      PackedStart(n - 1, n, origin, length);
    }
  }

  /** Below the clustered band the stack has the exact pitch and is centred. */
  lemma PackedStart(idx: int, n: int, origin: int, length: int)
    requires 0 <= idx < n && 6 * length < 10 * PITCH * n && SpanOf(n) <= length
    ensures AutoStart(idx, n, origin, length) == origin + (length - SpanOf(n)) / 2 + idx * PITCH
  {
    SliceLength(n, length);
  }

  /** A roomy edge keeps its last nub inside the middle band. */
  lemma LastClusterStart(n: int, origin: int, length: int)
    requires n > 0 && origin >= 0 && 6 * length >= 10 * PITCH * n
    ensures 10 * (AutoStart(n - 1, n, origin, length) + NUB_LONG + HIT_INFLATE) <= 10 * origin + 8 * length
  {
    hide AutoStart;
    ClusterStart(n - 1, n, origin, length);
    LastCenter(n, origin, length);
  }

  lemma LastCenter(n: int, origin: int, length: int)
    requires n > 0 && 6 * length >= 10 * PITCH * n
    ensures 10 * (SliceCenter(n - 1, n, origin, length) + NUB_LONG - NUB_LONG / 2 + HIT_INFLATE) <= 10 * origin + 8 * length
  {
    SliceLength(n, length);
    var s := 0.6 * length as real / n as real;
    assert s * n as real == 0.6 * length as real;
    assert s * ((n - 1) as real + 0.5) == s * n as real - s * 0.5;
    assert s * 0.5 >= 24.0;
  }

  /** Hit rects of autos on one edge: in declaration order and a full hit rect apart, slide included. */
  lemma AutosOrdered(board: Board, scale: int, i: nat, j: nat)
    requires AutoAt(board, i) && AutoAt(board, j) && i < j
    requires board.buttons[i].edge == board.buttons[j].edge && EdgeFits(board, scale, board.buttons[i].edge)
    ensures NubStart(board, scale, j) >= NubStart(board, scale, i) + PITCH
  {
    hide AutoStart;
    var edge := board.buttons[i].edge;
    AutosCounted(board.buttons, i, j, edge);
    AutosCounted(board.buttons, j, Count(board), edge);
    AutosSpaced(AutosBefore(board.buttons, i, edge), AutosBefore(board.buttons, j, edge), Autos(board, edge),
                OriginOf(board, scale, edge), LengthOf(board, scale, edge));
    if edge == Bottom && MoreNubOf(board, scale).w > 0 {
      SlideNeverClamps(board, scale, i);
      SlideNeverClamps(board, scale, j);
    }
  }

  /** Off the bottom edge an auto stays on its screen edge. */
  lemma AutoPlaced(board: Board, scale: int, i: nat)
    requires AutoAt(board, i) && EdgeFits(board, scale, board.buttons[i].edge)
    ensures var edge, start := board.buttons[i].edge, NubStart(board, scale, i);
            && HIT_INFLATE <= start <= OriginOf(board, scale, edge) + LengthOf(board, scale, edge) - NUB_LONG
            && (edge != Bottom ==> OriginOf(board, scale, edge) <= start)
  {
    hide AutoStart;
    var edge := board.buttons[i].edge;
    AutosCounted(board.buttons, i, Count(board), edge);
    AutoBounds(AutosBefore(board.buttons, i, edge), Autos(board, edge), OriginOf(board, scale, edge), LengthOf(board, scale, edge));
    if edge == Bottom && MoreNubOf(board, scale).w > 0 {
      SlideNeverClamps(board, scale, i);
    }
  }

  /** On the bottom edge an auto keeps clear of the "..." nub. */
  lemma AutoLeftOfMore(board: Board, scale: int, i: nat)
    requires AutoAt(board, i) && board.buttons[i].edge == Bottom && MoreNubOf(board, scale).w > 0
    requires EdgeFits(board, scale, Bottom)
    ensures NubStart(board, scale, i) + NUB_LONG + HIT_INFLATE <= MoreNubOf(board, scale).x
  {
    hide AutoStart;
    AutosCounted(board.buttons, i, Count(board), Bottom);
    SlideNeverClamps(board, scale, i);
    var n, idx := Autos(board, Bottom), AutosBefore(board.buttons, i, Bottom);
    if idx < n - 1 {
      AutosSpaced(idx, n - 1, n, OriginOf(board, scale, Bottom), LengthOf(board, scale, Bottom));
    }
  }

  predicate Apart(a: WinRect, b: WinRect) {
    a.x + a.w <= b.x || b.x + b.w <= a.x || a.y + a.h <= b.y || b.y + b.h <= a.y
  }

  lemma ApartIsDisjoint(a: WinRect, b: WinRect)
    requires Apart(a, b)
    ensures Disjoint(a, b)
  {
  }

  /** No click can land on two autos, or on an auto and the "..." nub. */
  lemma AutosDisjoint(board: Board, scale: int, i: nat, j: nat)
    requires board.width >= 0 && board.height >= 0
    requires AutoAt(board, i) && AutoAt(board, j) && i < j
    requires EdgeFits(board, scale, board.buttons[i].edge) && EdgeFits(board, scale, board.buttons[j].edge)
    ensures Disjoint(NubAt(board, scale, i).hit, NubAt(board, scale, j).hit)
    ensures Disjoint(NubAt(board, scale, i).hit, MoreNubOf(board, scale))
    ensures Disjoint(NubAt(board, scale, j).hit, MoreNubOf(board, scale))
  {
    assert board.width * ScaleOf(scale) >= 0 && board.height * ScaleOf(scale) >= 0;
    AutoPlaced(board, scale, i);
    AutoPlaced(board, scale, j);
    if board.buttons[i].edge == board.buttons[j].edge {
      AutosOrdered(board, scale, i, j);
    }
    assert HasEdge(board, board.buttons[i].edge) && HasEdge(board, board.buttons[j].edge);
    ApartIsDisjoint(NubAt(board, scale, i).hit, NubAt(board, scale, j).hit);
    AutoMissesMore(board, scale, i);
    AutoMissesMore(board, scale, j);
  }

  lemma AutoMissesMore(board: Board, scale: int, i: nat)
    requires board.width >= 0 && board.height >= 0
    requires AutoAt(board, i) && EdgeFits(board, scale, board.buttons[i].edge)
    ensures Disjoint(NubAt(board, scale, i).hit, MoreNubOf(board, scale))
  {
    assert board.width * ScaleOf(scale) >= 0 && board.height * ScaleOf(scale) >= 0;
    AutoPlaced(board, scale, i);
    if board.buttons[i].edge == Bottom && MoreNubOf(board, scale).w > 0 {
      AutoLeftOfMore(board, scale, i);
    }
    assert HasEdge(board, board.buttons[i].edge);
    ApartIsDisjoint(NubAt(board, scale, i).hit, MoreNubOf(board, scale));
  }

  // ---- Inside the window, off the screen ----

  /** The bottom stack of a board with a "..." nub, moved left. */
  predicate Slid(board: Board, scale: int, i: nat) {
    && AutoAt(board, i) && board.buttons[i].edge == Bottom && MoreNubOf(board, scale).w > 0
    && Autos(board, Bottom) > 0 && Overrun(board, scale) > 0
  }

  /** The bezel beyond the far end of an edge. */
  function FarMargin(board: Board, edge: Edge): int {
    Margin(board, if edge.Vertical() then Bottom else Right)
  }

  lemma StartBounds(board: Board, scale: int, i: nat)
    requires i < Count(board)
    ensures var edge, start := board.buttons[i].edge, NubStart(board, scale, i);
            var origin, length := OriginOf(board, scale, edge), LengthOf(board, scale, edge);
            && HIT_INFLATE <= start
            && (length >= NUB_LONG ==> start + NUB_LONG <= origin + length)
            && (length < NUB_LONG ==> start == if Slid(board, scale, i)
                  then Clampi(MoreNubOf(board, scale).x - NUB_LONG - HIT_INFLATE, HIT_INFLATE, origin) else origin)
  {
    hide AutoStart;
    var b := board.buttons[i];
    var origin, length := OriginOf(board, scale, b.edge), LengthOf(board, scale, b.edge);
    if IsAuto(b) {
      AutosCounted(board.buttons, i, Count(board), b.edge);
      AutoBounds(AutosBefore(board.buttons, i, b.edge), Autos(board, b.edge), origin, length);
      AutoBounds(Autos(board, b.edge) - 1, Autos(board, b.edge), origin, length);
    } else {
      FixedBounds(b.pos, origin, length);
    }
  }

  lemma FixedBounds(pos: real, origin: int, length: int)
    ensures length >= NUB_LONG ==> origin <= FixedStart(pos, origin, length) <= origin + length - NUB_LONG
    ensures length < NUB_LONG ==> FixedStart(pos, origin, length) == origin
  {
  }

  // ---- Where everything stands, from the board's own fields ----

  predicate Carries(board: Board, edge: Edge) {
    exists k :: 0 <= k < |board.buttons| && k < 8 && board.buttons[k].edge == edge
  }

  /** The screen is the board's size times the scale, and each bezel is 26 points wide, or 40 with a nub in it. */
  lemma ScreenPlaced(board: Board, scale: int)
    ensures var screen, window, sc := ScreenOf(board, scale), WindowOf(board, scale), if scale < 1 then 1 else scale;
            && screen.w == board.width * sc && screen.h == board.height * sc && window.x == window.y == 0
            && screen.x == (if Carries(board, Left) then 40 else 26) && screen.y == (if Carries(board, Top) then 40 else 26)
            && window.w - (screen.x + screen.w) == (if Carries(board, Right) then 40 else 26)
            && window.h - (screen.y + screen.h) == (if Carries(board, Bottom) then 40 else 26)
  {
  }

  /** The "..." nub stands in the bottom-right corner of a board with something to show, and nowhere on any other. */
  lemma MoreInCorner(board: Board, scale: int)
    ensures var more, window := MoreNubOf(board, scale), WindowOf(board, scale);
            if board.hasBattery || board.hasRotation
            then more.w == 36 && more.h == 12 && more.x + more.w == window.w && more.y + more.h == window.h
            else forall x, y :: !more.Contains(x, y)
  {
  }

  /** Nub i is button i's, 36 by 12 along its own edge of the window, and its click target is six points larger on
      every side and reaches the window's border. */
  lemma NubOnEdge(board: Board, scale: int, i: nat)
    requires i < |board.buttons| && i < 8
    ensures var nubs, window, edge := LayoutOf(board, scale).nubs, WindowOf(board, scale), board.buttons[i].edge;
            && i < |nubs| && |nubs| <= 8 && nubs[i].button == i && nubs[i].edge == edge
            && var body, hit := nubs[i].body, nubs[i].hit;
               && hit.x == body.x - 6 && hit.y == body.y - 6 && hit.w == body.w + 12 && hit.h == body.h + 12
               && (if edge == Left || edge == Right then body.w == 12 && body.h == 36 else body.w == 36 && body.h == 12)
               && match edge
                  case Left => hit.x == 0
                  case Right => hit.x + hit.w == window.w
                  case Top => hit.y == 0
                  case Bottom => hit.y + hit.h == window.h
  {
    hide NubStart, WindowOf;
  }

  /** How far along its edge nub i's middle stands, from the screen's corner. */
  function MiddleAlong(board: Board, scale: int, i: nat): int
    requires i < |board.buttons| && i < 8
  {
    var body, screen := NubAt(board, scale, i).body, ScreenOf(board, scale);
    if board.buttons[i].edge == Left || board.buttons[i].edge == Right then body.y + 18 - screen.y else body.x + 18 - screen.x
  }

  function EdgeLength(board: Board, scale: int, edge: Edge): int {
    if edge == Left || edge == Right then ScreenOf(board, scale).h else ScreenOf(board, scale).w
  }

  /** A nub with a position of its own stands with its middle within a point of that part of the way along its edge;
      where half of it would stick out, at the nearer end. */
  lemma FixedNubPlaced(board: Board, scale: int, i: nat)
    requires i < |board.buttons| && i < 8 && board.buttons[i].pos >= 0.0
    ensures EdgeLength(board, scale, board.buttons[i].edge) < 36 ==> MiddleAlong(board, scale, i) == 18
    ensures EdgeLength(board, scale, board.buttons[i].edge) >= 36 ==>
            var length, middle := EdgeLength(board, scale, board.buttons[i].edge), MiddleAlong(board, scale, i);
            var target := (if board.buttons[i].pos > 1.0 then 1.0 else board.buttons[i].pos) * length as real;
            && (18.0 <= target <= (length - 18) as real ==> target - 1.0 < middle as real <= target)
            && (target < 18.0 ==> middle == 18)
            && (target > (length - 18) as real ==> middle == length - 18)
  {
    hide ScreenOf, WindowOf;
    var pos, edge := board.buttons[i].pos, board.buttons[i].edge;
    OriginPositive(board, scale, edge);
    FixedBounds(pos, OriginOf(board, scale, edge), LengthOf(board, scale, edge));
    if EdgeLength(board, scale, edge) >= 36 {
      FixedMiddle(pos, OriginOf(board, scale, edge), LengthOf(board, scale, edge));
    }
  }

  lemma OriginPositive(board: Board, scale: int, edge: Edge)
    ensures OriginOf(board, scale, edge) >= 26
  {
  }

  lemma FixedMiddle(pos: real, origin: int, length: int)
    requires pos >= 0.0 && origin >= 0 && length >= 36
    ensures var target := (if pos > 1.0 then 1.0 else pos) * length as real;
            var middle := FixedStart(pos, origin, length) + 18 - origin;
            && (18.0 <= target <= (length - 18) as real ==> target - 1.0 < middle as real <= target)
            && (target < 18.0 ==> middle == 18)
            && (target > (length - 18) as real ==> middle == length - 18)
  {
    var p := if pos > 1.0 then 1.0 else pos;
    assert Clampf(pos, 0.0, 1.0) == p;
    assert p * length as real >= 0.0;
    MiddleOf(p * length as real, origin, length);
  }

  lemma MiddleOf(target: real, origin: int, length: int)
    requires target >= 0.0 && origin >= 0 && length >= 36
    ensures var middle := Clampi(Trunc(origin as real + target) - 18, origin, origin + length - 36) + 18 - origin;
            && (18.0 <= target <= (length - 18) as real ==> target - 1.0 < middle as real <= target)
            && (target < 18.0 ==> middle == 18)
            && (target > (length - 18) as real ==> middle == length - 18)
  {
    FloorShift(target, origin);
    FloorBound(target, length - 18);
  }

  /** Autos on an edge too short for their pitch share it in equal slots, each in the middle of its own, or at the
      end where half of it would stick out. */
  lemma SlotPlaced(idx: nat, n: nat, origin: int, length: int)
    requires idx < n && origin >= 0 && 36 <= length < (n - 1) * 48 + 36
    ensures var target := length as real / n as real * (idx as real + 0.5);
            var middle := AutoStart(idx, n, origin, length) + 18 - origin;
            && (18.0 <= target <= (length - 18) as real ==> target - 1.0 < middle as real <= target)
            && (target < 18.0 ==> middle == 18)
            && (target > (length - 18) as real ==> middle == length - 18)
  {
    var target := length as real / n as real * (idx as real + 0.5);
    SlotStart(idx, n, origin, length, target);
    hide AutoStart, Clampi, Trunc;
    MiddleOf(target, origin, length);
  }

  lemma SlotStart(idx: nat, n: nat, origin: int, length: int, target: real)
    requires idx < n && 36 <= length < (n - 1) * 48 + 36
    requires target == length as real / n as real * (idx as real + 0.5)
    ensures AutoStart(idx, n, origin, length) ==
            Clampi(Trunc(origin as real + target) - 18, origin, origin + length - 36)
    ensures target >= 0.0
  {
    hide Clampi, Trunc;
    SliceLength(n, length);
    var slot := length as real / n as real;
    assert slot >= 0.0;
    ProductOrdered(0.0, slot, idx as real + 0.5);
  }

  lemma FloorBound(v: real, n: int)
    ensures v <= n as real ==> v.Floor <= n
    ensures v > n as real ==> v.Floor >= n
    ensures v < 18.0 ==> v.Floor <= 17
    ensures v >= 18.0 ==> v.Floor >= 18
  {
  }

  lemma FloorShift(v: real, n: int)
    ensures (n as real + v).Floor == n + v.Floor
  {
  }

  /** On one edge, a nub with the larger position never stands before one with the smaller. */
  lemma FixedNubsOrdered(board: Board, scale: int, i: nat, j: nat)
    requires i < |board.buttons| && i < 8 && j < |board.buttons| && j < 8
    requires board.buttons[i].edge == board.buttons[j].edge && 0.0 <= board.buttons[i].pos <= board.buttons[j].pos
    requires EdgeLength(board, scale, board.buttons[i].edge) >= 0
    ensures MiddleAlong(board, scale, i) <= MiddleAlong(board, scale, j)
  {
    hide ScreenOf, WindowOf;
    var edge := board.buttons[i].edge;
    FixedOrdered(board.buttons[i].pos, board.buttons[j].pos, OriginOf(board, scale, edge), LengthOf(board, scale, edge));
  }

  lemma FixedOrdered(p: real, q: real, origin: int, length: int)
    requires p <= q && length >= 0
    ensures FixedStart(p, origin, length) <= FixedStart(q, origin, length)
  {
    hide PartOf, Clampi, Trunc;
    var t, u := PartOf(p, length), PartOf(q, length);
    PartsOrdered(p, q, length);
    TruncOrdered(origin as real + t, origin as real + u);
    ClampOrdered(Trunc(origin as real + t) - NUB_LONG / 2, Trunc(origin as real + u) - NUB_LONG / 2,
                 origin, origin + length - NUB_LONG);
  }

  lemma PartsOrdered(p: real, q: real, length: int)
    requires p <= q && length >= 0
    ensures PartOf(p, length) <= PartOf(q, length)
  {
    ProductOrdered(Clampf(p, 0.0, 1.0), Clampf(q, 0.0, 1.0), length as real);
  }

  lemma ProductOrdered(a: real, b: real, s: real)
    requires a <= b && s >= 0.0
    ensures a * s <= b * s
  {
    assert (b - a) * s >= 0.0;
  }

  lemma ClampOrdered(u: int, v: int, lo: int, hi: int)
    requires u <= v
    ensures Clampi(u, lo, hi) <= Clampi(v, lo, hi)
  {
  }

  lemma TruncOrdered(a: real, b: real)
    requires a <= b
    ensures Trunc(a) <= Trunc(b)
  {
  }

  /** Exactly when the whole click target of a nub can be reached by the mouse. */
  lemma NubInside(board: Board, scale: int, i: nat)
    requires i < Count(board) && board.width >= 0 && board.height >= 0
    ensures Nested(NubAt(board, scale, i).hit, WindowOf(board, scale)) <==>
              var edge := board.buttons[i].edge;
              || LengthOf(board, scale, edge) >= NUB_LONG
              || (if Slid(board, scale, i) then WindowOf(board, scale).w >= NUB_LONG + 2 * HIT_INFLATE
                  else LengthOf(board, scale, edge) + FarMargin(board, edge) >= NUB_LONG + HIT_INFLATE)
  {
    hide NubStart;
    var edge := board.buttons[i].edge;
    var hit, window := NubAt(board, scale, i).hit, WindowOf(board, scale);
    assert board.width * ScaleOf(scale) >= 0 && board.height * ScaleOf(scale) >= 0;
    assert HasEdge(board, edge);
    StartBounds(board, scale, i);
    if Nested(hit, window) {
      var far := if edge.Vertical() then (hit.x, hit.y + hit.h - 1) else (hit.x + hit.w - 1, hit.y);
      assert hit.Contains(far.0, far.1);
      assert window.Contains(far.0, far.1);
    }
  }

  /** The bound the layout is built for. */
  lemma NubsInsideAndOffScreen(board: Board, scale: int, i: nat)
    requires i < Count(board)
    requires ScreenOf(board, scale).w >= 16 && ScreenOf(board, scale).h >= 16
    ensures Nested(NubAt(board, scale, i).hit, WindowOf(board, scale))
    ensures Disjoint(NubAt(board, scale, i).hit, ScreenOf(board, scale))
  {
    hide NubStart;
    assert board.width < 0 ==> board.width * ScaleOf(scale) < 0;
    assert board.height < 0 ==> board.height * ScaleOf(scale) < 0;
    NubInside(board, scale, i);
    assert HasEdge(board, board.buttons[i].edge);
    ApartIsDisjoint(NubAt(board, scale, i).hit, ScreenOf(board, scale));
  }

  // ---- Overlay cards ----

  function HelpCard(window: WinRect, contentW: int, contentH: int): WinRect {
    var w0, h0 := contentW + 2 * HELP_CARD_PAD, contentH + 2 * HELP_CARD_PAD;
    var w1 := if w0 > window.w then window.w else w0;
    var h1 := if h0 > window.h then window.h else h0;
    var w := if w1 < 0 then 0 else w1;
    var h := if h1 < 0 then 0 else h1;
    WinRect(window.x + TruncDiv(window.w - w, 2), window.y + TruncDiv(window.h - h, 2), w, h)
  }

  function PanelCard(window: WinRect): WinRect {
    var maxW, maxH := window.w - 2 * PANEL_MARGIN, window.h - 2 * PANEL_MARGIN;
    var w0 := if PANEL_CARD_W > maxW then maxW else PANEL_CARD_W;
    var h0 := if PANEL_CARD_H > maxH then maxH else PANEL_CARD_H;
    var w := if w0 < 0 then 0 else w0;
    var h := if h0 < 0 then 0 else h0;
    var x, y := window.x + window.w - PANEL_MARGIN - w, window.y + window.h - PANEL_MARGIN - h;
    WinRect(if x < window.x then window.x else x, if y < window.y then window.y else y, w, h)
  }

  lemma CardsNest(window: WinRect, contentW: int, contentH: int)
    requires window.w >= 0 && window.h >= 0
    ensures Nested(HelpCard(window, contentW, contentH), window)
    ensures Nested(PanelCard(window), window)
  {
  }

  /** A help card whose content fits is as large as its content and centred to the point. */
  lemma HelpCardCentred(window: WinRect, contentW: int, contentH: int)
    requires 0 <= contentW && contentW + 2 * HELP_CARD_PAD <= window.w
    requires 0 <= contentH && contentH + 2 * HELP_CARD_PAD <= window.h
    ensures var c := HelpCard(window, contentW, contentH);
            && c.w == contentW + 2 * HELP_CARD_PAD && c.h == contentH + 2 * HELP_CARD_PAD
            && 0 <= (window.x + window.w - (c.x + c.w)) - (c.x - window.x) <= 1
            && 0 <= (window.y + window.h - (c.y + c.h)) - (c.y - window.y) <= 1
  {
  }

  datatype Panel = Panel(batBar: WinRect, batPct: WinRect, chgBtn: WinRect, usbBtn: WinRect, rotBtn: WinRect) {
    function Controls(): seq<WinRect> { [batBar, batPct, chgBtn, usbBtn, rotBtn] }
  }

  /** One control at x, centred on the card's height and clipped to its padded interior. */
  function PlaceControl(card: WinRect, x: int, w: int, h: int): WinRect {
    var right, interior := card.x + card.w - PANEL_PAD, card.h - 2 * PANEL_PAD;
    var w1 := if w > right - x then right - x else w;
    var h1 := if h > interior then interior else h;
    if w1 <= 0 || h1 <= 0 then NO_RECT else WinRect(x, card.y + TruncDiv(card.h - h1, 2), w1, h1)
  }

  function PanelOf(window: WinRect, battery: bool, rotation: bool): Panel {
    var card := PanelCard(window);
    var x0 := card.x + PANEL_PAD;
    var bar := if battery then PlaceControl(card, x0, BAT_BAR_W, BAT_BAR_H) else NO_RECT;
    var pct := PlaceControl(card, bar.x + bar.w + PANEL_PCT_LEAD, PANEL_PCT_W, PANEL_PCT_H);
    var x1 := x0 + BAT_BAR_W + PANEL_PCT_GAP;
    var x2 := x1 + PANEL_BTN_W + PANEL_GAP;
    var x3 := if battery then x2 + PANEL_BTN_W + PANEL_GAP else x0;
    Panel(bar,
          if bar.w > 0 && pct.w >= PANEL_PCT_W then pct.(y := bar.y + 4) else NO_RECT,
          if battery then PlaceControl(card, x1, PANEL_BTN_W, PANEL_BTN_H) else NO_RECT,
          if battery then PlaceControl(card, x2, PANEL_BTN_W, PANEL_BTN_H) else NO_RECT,
          if rotation then PlaceControl(card, x3, PANEL_BTN_W, PANEL_BTN_H) else NO_RECT)
  }

  /** The source steps one x across the card, by declared widths. */
  method LayoutPanel(window: WinRect, battery: bool, rotation: bool) returns (p: Panel)
    ensures p == PanelOf(window, battery, rotation)
  {
    var card := PanelCard(window);
    p := Panel(NO_RECT, NO_RECT, NO_RECT, NO_RECT, NO_RECT);
    var x := card.x + PANEL_PAD;
    if battery {
      p := p.(batBar := PlaceControl(card, x, BAT_BAR_W, BAT_BAR_H));
      if p.batBar.w > 0 {
        p := p.(batPct := PlaceControl(card, p.batBar.x + p.batBar.w + PANEL_PCT_LEAD, PANEL_PCT_W, PANEL_PCT_H));
        if p.batPct.w < PANEL_PCT_W {
          p := p.(batPct := NO_RECT);
        } else {
          p := p.(batPct := p.batPct.(y := p.batBar.y + 4));
        }
      }
      x := x + BAT_BAR_W + PANEL_PCT_GAP;
      p := p.(chgBtn := PlaceControl(card, x, PANEL_BTN_W, PANEL_BTN_H));
      x := x + PANEL_BTN_W + PANEL_GAP;
      p := p.(usbBtn := PlaceControl(card, x, PANEL_BTN_W, PANEL_BTN_H));
      x := x + PANEL_BTN_W + PANEL_GAP;
    }
    if rotation {
      p := p.(rotBtn := PlaceControl(card, x, PANEL_BTN_W, PANEL_BTN_H));
    }
  }

  /** On any window every control is absent or nested in the card, controls run left to right without
      overlapping, and the percent readout is whole or absent. A control the board lacks is absent. */
  lemma PanelControls(window: WinRect, battery: bool, rotation: bool)
    requires window.w >= 0 && window.h >= 0
    ensures var p, card := PanelOf(window, battery, rotation), PanelCard(window);
            && (forall i :: 0 <= i < 5 ==> p.Controls()[i] == NO_RECT || Nested(p.Controls()[i], card))
            && (forall i, j :: 0 <= i < j < 5 && p.Controls()[i] != NO_RECT && p.Controls()[j] != NO_RECT ==>
                  p.Controls()[i].x + p.Controls()[i].w <= p.Controls()[j].x)
            && (p.batPct.w == PANEL_PCT_W || p.batPct == NO_RECT)
            && (!battery ==> p.batBar == p.batPct == p.chgBtn == p.usbBtn == NO_RECT)
            && (!rotation ==> p.rotBtn == NO_RECT)
  {
  }

  /** A window with room for the full card shows every control the board has, unclipped. */
  lemma PanelComplete(window: WinRect, battery: bool, rotation: bool)
    requires window.w >= PANEL_CARD_W + 2 * PANEL_MARGIN && window.h >= PANEL_CARD_H + 2 * PANEL_MARGIN
    ensures var p := PanelOf(window, battery, rotation);
            && (battery ==> p.batBar.w == BAT_BAR_W && p.batPct.w == PANEL_PCT_W
                            && p.chgBtn.w == p.usbBtn.w == PANEL_BTN_W)
            && (rotation ==> p.rotBtn.w == PANEL_BTN_W)
  {
  }

  /** There the card stands 12 points off the bottom-right corner, and the controls run across its middle: the bar 12
      points in, the readout 8 behind it and 4 below its top, then the buttons with 8 between them. */
  lemma PanelStands(window: WinRect, battery: bool, rotation: bool)
    requires window.w >= PANEL_CARD_W + 2 * PANEL_MARGIN && window.h >= PANEL_CARD_H + 2 * PANEL_MARGIN
    ensures var p, card := PanelOf(window, battery, rotation), PanelCard(window);
            && card.x + card.w + 12 == window.x + window.w && card.y + card.h + 12 == window.y + window.h && card.h == 58
            && (battery ==>
                  && p.batBar.x == card.x + 12 && p.batBar.h == 22 && p.batBar.y - card.y == card.y + card.h - (p.batBar.y + p.batBar.h)
                  && p.batPct.x == p.batBar.x + p.batBar.w + 8 && p.batPct.y == p.batBar.y + 4
                  && p.chgBtn.x == p.batPct.x + p.batPct.w && p.usbBtn.x == p.chgBtn.x + p.chgBtn.w + 8
                  && p.chgBtn.y == p.usbBtn.y == card.y + 12 && p.chgBtn.h == p.usbBtn.h == 34)
            && (rotation ==>
                  && p.rotBtn.x == (if battery then p.usbBtn.x + p.usbBtn.w + 8 else card.x + 12)
                  && p.rotBtn.y == card.y + 12 && p.rotBtn.h == 34)
            && (battery && rotation ==> p.rotBtn.x + p.rotBtn.w + 12 == card.x + card.w)
  {
  }
}
