/** The device window's input state machine: mouse, keyboard, two overlays, drag, touch and the timed
    power button.

    `Step` gives the meaning of one event on the abstract state, where a control is simply held by the
    mouse or by a key. The class of `DeviceWindow` keeps what the source keeps (flags, pin levels,
    booleans, a loop per event) and every method is proved to refine `Step`; the promises over whole runs are proved about
    `Run`. SDL's events are a datatype and its clock is the time carried by each input.
 */
module SimWindow {
  import opened CLang
  import opened WindowLayout

  const KEY_ESCAPE := 27
  const KEY_BACKQUOTE := 96
  const KEY_SLASH := 47
  const KEY_H := 104
  const PWR_LONG_MS := 1500
  const TICKS_MOD := 0x1_0000_0000
  const PINS := 64

  datatype Overlay = Closed | Help | PanelOpen

  /** `FrameEnd` is the long-press step that closes each tick. */
  datatype Event =
    | MouseDown(x: int, y: int)
    | MouseUp
    | MouseMotion(x: int, y: int)
    | KeyDown(sym: int, again: bool)
    | KeyUp(sym: int)
    | FrameEnd
    | Quit
    | Other

  datatype Input = Input(event: Event, now: nat)

  datatype Config = Config(board: Board, scale: int) {
    ghost predicate Valid() {
      && scale >= 1 && board.width >= 1 && board.height >= 1
    }

    function Nubs(): nat { Count(board) }

    function Window(): WinRect { WindowOf(board, scale) }

    function Controls(): Panel { PanelOf(Window(), board.hasBattery, board.hasRotation) }

    predicate HasPanel() { board.hasBattery || board.hasRotation }

    predicate IsPwr(i: nat) { i < Nubs() && board.buttons[i].action == Pwr }

    predicate Shortcut(i: nat, sym: int) {
      i < Nubs() && board.buttons[i].key != 0 && board.buttons[i].key == sym
    }
  }

  datatype State = State(
    mouse: int,              // the control the mouse holds, or -1
    keys: set<nat>,          // the controls held by a key
    overlay: Overlay,
    touching: bool,
    dragging: bool,
    pwrDownAt: nat,
    longSent: bool,
    queue: seq<int>,         // every power edge injected so far
    touchX: int, touchY: int,
    battery: int, charging: bool, vbus: bool, quadrant: int,
    lmb: bool)               // whether the physical left button is down
  {
    predicate Held(i: nat) { mouse == i || i in keys }

    /** Nothing pressed, released or injected. */
    predicate SameHolds(that: State) {
      mouse == that.mouse && keys == that.keys && queue == that.queue && longSent == that.longSent
    }

    /** The edge a release injects now. */
    function Edge(): int { if longSent then 3 else 1 }
  }

  const INITIAL := State(-1, {}, Closed, false, false, 0, false, [], 0, 0, 75, false, true, 0, false)

  // ---- One event ----

  function TouchOf(cfg: Config, mx: int, my: int): (int, int)
    requires cfg.scale >= 1
  {
    var s := ScreenOf(cfg.board, cfg.scale);
    (Pin(TruncDiv(mx - s.x, cfg.scale), cfg.board.width), Pin(TruncDiv(my - s.y, cfg.scale), cfg.board.height))
  }

  function Pin(v: int, size: int): int {
    if v < 0 then 0 else if v >= size then size - 1 else v
  }

  function BatteryOf(cfg: Config, mx: int): int {
    var bar := cfg.Controls().batBar;
    var pct := if bar.w - 4 > 0 then TruncDiv((mx - (bar.x + 2)) * 100, bar.w - 4) else 0;
    if pct < 0 then 0 else if pct > 100 then 100 else pct
  }

  /** The first nub, from the i-th on, whose hit rect holds the point. */
  function NubHit(cfg: Config, i: nat, x: int, y: int): int
    decreases cfg.Nubs() - i
  {
    if i >= cfg.Nubs() then -1
    else if NubAt(cfg.board, cfg.scale, i).hit.Contains(x, y) then i
    else NubHit(cfg, i + 1, x, y)
  }

  function Repeat(v: int, n: nat): seq<int> { seq(n, _ => v) }

  /** Power controls among the first n that satisfy `chosen`. */
  function CountPwr(cfg: Config, n: nat, chosen: set<nat>): nat {
    if n == 0 then 0
    else CountPwr(cfg, n - 1, chosen) + (if cfg.IsPwr(n - 1) && n - 1 in chosen then 1 else 0)
  }

  function HeldSet(cfg: Config, s: State): set<nat> { set i | 0 <= i < cfg.Nubs() && s.Held(i) }

  /** Every hold dropped at once: one release edge per held power control. */
  function ReleaseAll(cfg: Config, s: State): State {
    s.(mouse := -1, keys := {}, touching := false, dragging := false,
       queue := s.queue + Repeat(s.Edge(), CountPwr(cfg, cfg.Nubs(), HeldSet(cfg, s))))
  }

  function Open(cfg: Config, s: State, overlay: Overlay): State {
    ReleaseAll(cfg, s).(overlay := overlay)
  }

  function Close(s: State): (r: State)
    ensures r.SameHolds(s)
  {
    if s.overlay == PanelOpen then s.(overlay := Closed, dragging := false) else s.(overlay := Closed)
  }

  function Press(cfg: Config, s: State, pressed: set<nat>, now: nat): (r: State)
    ensures r.(pwrDownAt := s.pwrDownAt, longSent := s.longSent) == s
  {
    if exists i :: i in pressed && cfg.IsPwr(i) then s.(pwrDownAt := now, longSent := false) else s
  }

  function PanelClick(cfg: Config, s: State, x: int, y: int): (r: State)
    ensures r.SameHolds(s)
  {
    var p := cfg.Controls();
    if !PanelCard(cfg.Window()).Contains(x, y) then Close(s)
    else if cfg.board.hasBattery && p.batBar.Contains(x, y) then s.(dragging := true, battery := BatteryOf(cfg, x))
    else if cfg.board.hasBattery && p.chgBtn.Contains(x, y) then s.(charging := !s.charging)
    else if cfg.board.hasBattery && p.usbBtn.Contains(x, y) then s.(vbus := !s.vbus)
    else if cfg.board.hasRotation && p.rotBtn.Contains(x, y) then s.(quadrant := (s.quadrant + 1) % 4)
    else s
  }

  function DeviceClick(cfg: Config, s: State, x: int, y: int, now: nat): State
    requires cfg.Valid()
  {
    if ScreenOf(cfg.board, cfg.scale).Contains(x, y) then
      var t := TouchOf(cfg, x, y);
      s.(touching := true, touchX := t.0, touchY := t.1)
    else
      var i := NubHit(cfg, 0, x, y);
      if i < 0 then s else Press(cfg, s, {i}, now).(mouse := i)
  }

  function OnMouseDown(cfg: Config, s: State, x: int, y: int, now: nat): State
    requires cfg.Valid()
  {
    var d := s.(lmb := true);
    if cfg.HasPanel() && MoreNubOf(cfg.board, cfg.scale).Contains(x, y) then
      if s.overlay == PanelOpen then Close(d) else Open(cfg, d, PanelOpen)
    else if s.overlay == Help then Close(d)
    else if s.overlay == PanelOpen then PanelClick(cfg, d, x, y)
    else DeviceClick(cfg, d, x, y, now)
  }

  function OnMouseUp(cfg: Config, s: State): State {
    var u := s.(lmb := false, touching := false, dragging := false, mouse := -1);
    if s.mouse >= 0 && s.mouse !in s.keys && cfg.IsPwr(s.mouse) then u.(queue := s.queue + [s.Edge()]) else u
  }

  function OnMotion(cfg: Config, s: State, x: int, y: int): State
    requires cfg.Valid()
  {
    if s.touching then
      var t := TouchOf(cfg, x, y);
      s.(touchX := t.0, touchY := t.1)
    else if s.dragging then s.(battery := BatteryOf(cfg, x))
    else s
  }

  function Matching(cfg: Config, sym: int): set<nat> { set i | 0 <= i < cfg.Nubs() && cfg.Shortcut(i, sym) }

  function OnKeyDown(cfg: Config, s: State, sym: int, again: bool, now: nat): State {
    if sym == KEY_ESCAPE then Close(s)
    else if !again && sym == KEY_BACKQUOTE then
      if !cfg.HasPanel() then s else if s.overlay == PanelOpen then Close(s) else Open(cfg, s, PanelOpen)
    else if !again && (sym == KEY_SLASH || sym == KEY_H) then
      if s.overlay == Help then Close(s) else Open(cfg, s, Help)
    else if !again && s.overlay == Closed then
      Press(cfg, s, Matching(cfg, sym), now).(keys := s.keys + Matching(cfg, sym))
    else s
  }

  function OnKeyUp(cfg: Config, s: State, sym: int): State {
    var up := s.keys * Matching(cfg, sym);
    s.(keys := s.keys - up, queue := s.queue + Repeat(s.Edge(), CountPwr(cfg, cfg.Nubs(), up - {s.mouse})))
  }

  predicate PwrHeld(cfg: Config, s: State) {
    exists i :: 0 <= i < cfg.Nubs() && cfg.IsPwr(i) && s.Held(i)
  }

  function OnFrameEnd(cfg: Config, s: State, now: nat): State {
    if PwrHeld(cfg, s) && !s.longSent && (now - s.pwrDownAt) % TICKS_MOD >= PWR_LONG_MS
    then s.(queue := s.queue + [2], longSent := true) else s
  }

  function Step(cfg: Config, s: State, i: Input): State
    requires cfg.Valid()
  {
    match i.event
    case MouseDown(x, y) => OnMouseDown(cfg, s, x, y, i.now)
    case MouseUp => OnMouseUp(cfg, s)
    case MouseMotion(x, y) => OnMotion(cfg, s, x, y)
    case KeyDown(sym, again) => OnKeyDown(cfg, s, sym, again, i.now)
    case KeyUp(sym) => OnKeyUp(cfg, s, sym)
    case FrameEnd => OnFrameEnd(cfg, s, i.now)
    case Quit => s
    case Other => s
  }

  function Run(cfg: Config, s: State, inputs: seq<Input>): State
    requires cfg.Valid()
    decreases |inputs|
  {
    if inputs == [] then s else Run(cfg, Step(cfg, s, inputs[0]), inputs[1..])
  }

  lemma {:induction false} RunSnoc(cfg: Config, s: State, inputs: seq<Input>, last: Input)
    requires cfg.Valid()
    ensures Run(cfg, s, inputs + [last]) == Step(cfg, Run(cfg, s, inputs), last)
    decreases |inputs|
  {
    hide Step;
    if inputs == [] {
      assert Run(cfg, Step(cfg, s, last), []) == Step(cfg, s, last);
    } else {
      RunSnoc(cfg, Step(cfg, s, inputs[0]), inputs[1..], last);
      assert (inputs + [last])[1..] == inputs[1..] + [last];
    }
  }

  // Closing the window.

  /** The event asks the window to close: a quit, or Escape with no overlay to close. */
  predicate AsksToClose(s: State, i: Input) {
    i.event.Quit? || (i.event.KeyDown? && i.event.sym == KEY_ESCAPE && s.overlay == Closed)
  }

  /** The first event of a batch that asks to close in the state reached by then, or -1. */
  function FirstClose(cfg: Config, s: State, events: seq<Input>): (k: int)
    requires cfg.Valid()
    ensures -1 <= k < |events|
    decreases |events|
  {
    if events == [] then -1
    else if AsksToClose(s, events[0]) then 0
    else
      var k := FirstClose(cfg, Step(cfg, s, events[0]), events[1..]);
      if k == -1 then -1 else k + 1
  }

  lemma {:induction false} FirstCloseIsFirst(cfg: Config, s: State, events: seq<Input>)
    requires cfg.Valid()
    ensures var k := FirstClose(cfg, s, events);
            && (k >= 0 ==> AsksToClose(Run(cfg, s, events[..k]), events[k]))
            && (forall j :: 0 <= j < (if k >= 0 then k else |events|) ==> !AsksToClose(Run(cfg, s, events[..j]), events[j]))
    decreases |events|
  {
    hide Step, AsksToClose;
    if events != [] {
      var t, rest := Step(cfg, s, events[0]), events[1..];
      var k, later := FirstClose(cfg, s, events), FirstClose(cfg, t, rest);
      FirstCloseIsFirst(cfg, t, rest);
      forall j | 1 <= j <= |events|
        ensures Run(cfg, s, events[..j]) == Run(cfg, t, rest[..j - 1])
      {
        assert events[..j][1..] == rest[..j - 1];
      }
      assert Run(cfg, s, events[..0]) == s;
      forall j | 0 <= j < (if k >= 0 then k else |events|)
        ensures !AsksToClose(Run(cfg, s, events[..j]), events[j])
      {
        if j > 0 {
          assert !AsksToClose(Run(cfg, t, rest[..j - 1]), rest[j - 1]);
        }
      }
    }
  }

  // ---- What each event does, from the event and the board's own fields ----

  predicate OnMore(cfg: Config, e: Event) {
    e.MouseDown? && (cfg.board.hasBattery || cfg.board.hasRotation) && MoreNubOf(cfg.board, cfg.scale).Contains(e.x, e.y)
  }

  /** The event opens an overlay that is not open. */
  predicate Opens(cfg: Config, s: State, e: Event) {
    || (e.KeyDown? && !e.again && e.sym == 96 && (cfg.board.hasBattery || cfg.board.hasRotation) && s.overlay != PanelOpen)
    || (e.KeyDown? && !e.again && (e.sym == 47 || e.sym == 104) && s.overlay != Help)
    || (OnMore(cfg, e) && s.overlay != PanelOpen)
  }

  /** A fresh press of a key that is no key of the window's own, with no overlay open. */
  predicate ControlKey(s: State, e: Event) {
    e.KeyDown? && !e.again && e.sym !in {27, 96, 47, 104} && s.overlay == Closed
  }

  predicate HasKey(b: Button, sym: int) { b.key != 0 && b.key == sym }

  /** A press of the mouse on the bare device: past the "..." nub, with no overlay open. */
  predicate OnDevice(cfg: Config, s: State, e: Event) {
    e.MouseDown? && !OnMore(cfg, e) && s.overlay == Closed
  }

  /** A key holds control i afterwards. */
  predicate KeyHolds(cfg: Config, s: State, e: Event, i: nat)
    requires i < |cfg.board.buttons|
  {
    if Opens(cfg, s, e) then false
    else if ControlKey(s, e) then i in s.keys || HasKey(cfg.board.buttons[i], e.sym)
    else if e.KeyUp? then i in s.keys && !HasKey(cfg.board.buttons[i], e.sym)
    else i in s.keys
  }

  /** j is the first control whose click target holds the point; -1 if none does. */
  ghost predicate FirstHit(cfg: Config, x: int, y: int, j: int) {
    var nubs := LayoutOf(cfg.board, cfg.scale).nubs;
    && -1 <= j < |nubs|
    && (j >= 0 ==> nubs[j].hit.Contains(x, y))
    && (forall k :: 0 <= k < (if j >= 0 then j else |nubs|) ==> !nubs[k].hit.Contains(x, y))
  }

  /** The mouse holds control `held` afterwards, or none if it is -1. */
  ghost predicate MouseHolds(cfg: Config, s: State, e: Event, held: int) {
    if Opens(cfg, s, e) || e.MouseUp? then held == -1
    else if OnDevice(cfg, s, e) && !ScreenOf(cfg.board, cfg.scale).Contains(e.x, e.y) then
      exists j :: FirstHit(cfg, e.x, e.y, j) && held == if j >= 0 then j else s.mouse
    else held == s.mouse
  }

  function OverlayThen(cfg: Config, s: State, e: Event): Overlay {
    if Opens(cfg, s, e) then (if e.KeyDown? && (e.sym == 47 || e.sym == 104) then Help else PanelOpen)
    else if e.KeyDown? && (e.sym == 27 || (!e.again && (e.sym == 47 || e.sym == 104))) then Closed
    else if e.KeyDown? && !e.again && e.sym == 96 && (cfg.board.hasBattery || cfg.board.hasRotation) then Closed
    else if OnMore(cfg, e) || (e.MouseDown? && s.overlay == Help) then Closed
    else if e.MouseDown? && s.overlay == PanelOpen && !PanelCard(WindowOf(cfg.board, cfg.scale)).Contains(e.x, e.y) then Closed
    else s.overlay
  }

  predicate TouchingThen(cfg: Config, s: State, e: Event) {
    if Opens(cfg, s, e) || e.MouseUp? then false
    else s.touching || (OnDevice(cfg, s, e) && ScreenOf(cfg.board, cfg.scale).Contains(e.x, e.y))
  }

  /** Who holds what, which overlay is open and whether the screen is touched, after one event. */
  ghost predicate EventRule(cfg: Config, s: State, e: Event, t: State) {
    && (forall i :: 0 <= i < cfg.Nubs() ==> (i in t.keys <==> KeyHolds(cfg, s, e, i)))
    && MouseHolds(cfg, s, e, t.mouse)
    && t.overlay == OverlayThen(cfg, s, e)
    && t.touching == TouchingThen(cfg, s, e)
  }

  lemma OpenDrops(cfg: Config, s: State, overlay: Overlay)
    ensures var t := Open(cfg, s, overlay); t.keys == {} && t.mouse == -1 && t.overlay == overlay && !t.touching
  {
  }

  lemma KeyDownKeys(cfg: Config, s: State, i: Input, c: nat)
    requires i.event.KeyDown? && c < cfg.Nubs()
    ensures c in OnKeyDown(cfg, s, i.event.sym, i.event.again, i.now).keys <==> KeyHolds(cfg, s, i.event, c)
  {
    hide Open, Close, OnMore;
    NotOnMore(cfg, i.event);
    OpenDrops(cfg, s, Help);
    OpenDrops(cfg, s, PanelOpen);
    ClosesTo(s);
  }

  lemma PressKeeps(cfg: Config, s: State, pressed: set<nat>, now: nat)
    ensures var t := Press(cfg, s, pressed, now); t.mouse == s.mouse && t.overlay == s.overlay && t.touching == s.touching
  {
  }

  lemma NotOnMore(cfg: Config, e: Event)
    requires !e.MouseDown?
    ensures !OnMore(cfg, e)
  {
  }

  lemma ClosesTo(s: State)
    ensures var t := Close(s); t.overlay == Closed && t.mouse == s.mouse && t.keys == s.keys && t.touching == s.touching
  {
  }

  lemma KeyDownOverlay(cfg: Config, s: State, i: Input)
    requires i.event.KeyDown?
    ensures OnKeyDown(cfg, s, i.event.sym, i.event.again, i.now).overlay == OverlayThen(cfg, s, i.event)
  {
    hide Open, Close, Matching, Press, OnMore, PanelCard, WindowOf, WinRect.Contains;
    NotOnMore(cfg, i.event);
    OpenDrops(cfg, s, Help);
    OpenDrops(cfg, s, PanelOpen);
    ClosesTo(s);
    PressKeeps(cfg, s, Matching(cfg, i.event.sym), i.now);
  }

  lemma KeyDownRest(cfg: Config, s: State, i: Input)
    requires i.event.KeyDown?
    ensures var t := OnKeyDown(cfg, s, i.event.sym, i.event.again, i.now);
            MouseHolds(cfg, s, i.event, t.mouse) && t.touching == TouchingThen(cfg, s, i.event)
  {
    hide Open, Close, Matching, Press, OnMore, FirstHit, ScreenOf, WinRect.Contains;
    NotOnMore(cfg, i.event);
    OpenDrops(cfg, s, Help);
    OpenDrops(cfg, s, PanelOpen);
    ClosesTo(s);
    PressKeeps(cfg, s, Matching(cfg, i.event.sym), i.now);
  }

  lemma MouseDownKeys(cfg: Config, s: State, i: Input)
    requires cfg.Valid() && i.event.MouseDown?
    ensures OnMouseDown(cfg, s, i.event.x, i.event.y, i.now).keys == if Opens(cfg, s, i.event) then {} else s.keys
  {
    hide Open, PanelClick, MoreNubOf, ScreenOf, TouchOf, NubHit;
    OpenDrops(cfg, s.(lmb := true), PanelOpen);
  }

  lemma PanelClickKeeps(cfg: Config, s: State, x: int, y: int)
    ensures var t := PanelClick(cfg, s, x, y);
            && t.mouse == s.mouse && t.touching == s.touching
            && (s.overlay == PanelOpen ==>
                  t.overlay == if PanelCard(WindowOf(cfg.board, cfg.scale)).Contains(x, y) then PanelOpen else Closed)
  {
    hide PanelCard, WindowOf, PanelOf, BatteryOf, WinRect.Contains;
  }

  lemma MouseDownRest(cfg: Config, s: State, i: Input)
    requires cfg.Valid() && i.event.MouseDown?
    ensures var t := OnMouseDown(cfg, s, i.event.x, i.event.y, i.now);
            && t.overlay == OverlayThen(cfg, s, i.event) && t.touching == TouchingThen(cfg, s, i.event)
  {
    hide Open, PanelClick, MoreNubOf, ScreenOf, TouchOf, NubHit, PanelCard, WindowOf;
    OpenDrops(cfg, s.(lmb := true), PanelOpen);
    PanelClickKeeps(cfg, s.(lmb := true), i.event.x, i.event.y);
  }

  lemma MouseDownHolds(cfg: Config, s: State, i: Input)
    requires cfg.Valid() && i.event.MouseDown?
    ensures MouseHolds(cfg, s, i.event, OnMouseDown(cfg, s, i.event.x, i.event.y, i.now).mouse)
  {
    hide Open, PanelClick, MoreNubOf, ScreenOf, TouchOf, NubHit, PanelCard, WindowOf, FirstHit;
    OpenDrops(cfg, s.(lmb := true), PanelOpen);
    PanelClickKeeps(cfg, s.(lmb := true), i.event.x, i.event.y);
    FirstHitIs(cfg, i.event.x, i.event.y);
  }

  lemma KeyUpKeys(cfg: Config, s: State, i: Input, c: nat)
    requires i.event.KeyUp? && c < cfg.Nubs()
    ensures c in OnKeyUp(cfg, s, i.event.sym).keys <==> c in s.keys && !HasKey(cfg.board.buttons[c], i.event.sym)
  {
    hide CountPwr;
  }

  /** One event of the window does exactly what its rule says. */
  lemma EventsFollowRule(cfg: Config, s: State, i: Input)
    requires cfg.Valid()
    ensures EventRule(cfg, s, i.event, Step(cfg, s, i))
  {
    hide OnMouseDown, OnKeyDown, MouseHolds, OverlayThen, TouchingThen, KeyHolds;
    match i.event
    case MouseDown(x, y) =>
      MouseDownRest(cfg, s, i);
      MouseDownHolds(cfg, s, i);
      MouseDownKeys(cfg, s, i);
      KeysKept(cfg, s, i.event);
    case KeyDown(sym, again) =>
      KeyDownRest(cfg, s, i);
      KeyDownOverlay(cfg, s, i);
      forall c | 0 <= c < cfg.Nubs()
        ensures c in OnKeyDown(cfg, s, sym, again, i.now).keys <==> KeyHolds(cfg, s, i.event, c)
      {
        KeyDownKeys(cfg, s, i, c);
      }
    case _ => OtherEvents(cfg, s, i);
  }

  lemma KeysKept(cfg: Config, s: State, e: Event)
    requires !e.KeyDown? && !e.KeyUp?
    ensures forall c :: 0 <= c < cfg.Nubs() ==> (KeyHolds(cfg, s, e, c) <==> !Opens(cfg, s, e) && c in s.keys)
  {
  }

  lemma OtherEvents(cfg: Config, s: State, i: Input)
    requires cfg.Valid() && !i.event.MouseDown? && !i.event.KeyDown?
    ensures EventRule(cfg, s, i.event, Step(cfg, s, i))
  {
    hide CountPwr, TouchOf, BatteryOf, OnKeyUp, ScreenOf, MoreNubOf, PwrHeld, FirstHit, PanelCard, WindowOf, OnMore;
    NotOnMore(cfg, i.event);
    if i.event.KeyUp? {
      KeyUpHolds(cfg, s, i);
      KeyUpRest(cfg, s, i.event.sym);
    }
  }

  lemma KeyUpHolds(cfg: Config, s: State, i: Input)
    requires cfg.Valid() && i.event.KeyUp?
    ensures forall c :: 0 <= c < cfg.Nubs() ==>
            (c in OnKeyUp(cfg, s, i.event.sym).keys <==> KeyHolds(cfg, s, i.event, c))
  {
    hide CountPwr, PwrHeld;
    forall c | 0 <= c < cfg.Nubs()
      ensures c in OnKeyUp(cfg, s, i.event.sym).keys <==> KeyHolds(cfg, s, i.event, c)
    {
      KeyUpKeys(cfg, s, i, c);
    }
  }

  lemma KeyUpRest(cfg: Config, s: State, sym: int)
    ensures var t := OnKeyUp(cfg, s, sym); t.mouse == s.mouse && t.overlay == s.overlay && t.touching == s.touching
  {
    hide CountPwr;
  }

  /** A mouse on the screen reports the pixel under it, one beside it the nearest column or row. */
  lemma TouchFollows(cfg: Config, x: int, y: int)
    requires cfg.Valid()
    ensures var s, t := ScreenOf(cfg.board, cfg.scale), TouchOf(cfg, x, y);
            && (x < s.x ==> t.0 == 0) && (x >= s.x + s.w ==> t.0 == cfg.board.width - 1)
            && (y < s.y ==> t.1 == 0) && (y >= s.y + s.h ==> t.1 == cfg.board.height - 1)
            && (s.x <= x < s.x + s.w ==> t.0 * cfg.scale <= x - s.x < (t.0 + 1) * cfg.scale)
            && (s.y <= y < s.y + s.h ==> t.1 * cfg.scale <= y - s.y < (t.1 + 1) * cfg.scale)
  {
    var s := ScreenOf(cfg.board, cfg.scale);
    Follows(x - s.x, cfg.scale, cfg.board.width);
    Follows(y - s.y, cfg.scale, cfg.board.height);
  }

  lemma Follows(v: int, scale: int, size: int)
    requires scale >= 1 && size >= 1
    ensures v < 0 ==> Pin(TruncDiv(v, scale), size) == 0
    ensures v >= size * scale ==> Pin(TruncDiv(v, scale), size) == size - 1
    ensures 0 <= v < size * scale ==> var p := Pin(TruncDiv(v, scale), size); p * scale <= v < (p + 1) * scale
  {
    QuotientBelow(v, scale, size);
    QuotientBelow(v, scale, 0);
    QuotientBelow(-v, scale, 0);
    if 0 <= v < size * scale {
      QuotientBelow(v, scale, v / scale);
      QuotientBelow(v, scale, v / scale + 1);
    }
  }

  /** The battery follows the mouse along the inside of the bar: empty at its left end, full at its right, and in
      between the percentage of the way, rounded down. */
  lemma BatteryFollows(cfg: Config, x: int)
    requires cfg.Controls().batBar.w > 4
    ensures var bar, pct := cfg.Controls().batBar, BatteryOf(cfg, x);
            && (x <= bar.x + 2 ==> pct == 0) && (x >= bar.x + bar.w - 2 ==> pct == 100)
            && (bar.x + 2 <= x <= bar.x + bar.w - 2 ==>
                  pct * (bar.w - 4) <= (x - bar.x - 2) * 100 < (pct + 1) * (bar.w - 4))
  {
    hide PanelOf, TruncDiv;
    var bar := cfg.Controls().batBar;
    Percent(x - bar.x - 2, bar.w - 4);
  }

  lemma Percent(v: int, span: int)
    requires span > 0
    ensures var pct := TruncDiv(v * 100, span);
            && (v <= 0 ==> pct <= 0) && (v >= span ==> pct >= 100)
            && (0 <= v <= span ==> 0 <= pct <= 100 && pct * span <= v * 100 < (pct + 1) * span)
  {
    QuotientBelow(v * 100, span, 100);
    QuotientBelow(v * 100, span, 101);
    QuotientBelow(v * 100, span, 0);
    QuotientBelow(-v * 100, span, 0);
    if 0 <= v {
      QuotientBelow(v * 100, span, v * 100 / span);
      QuotientBelow(v * 100, span, v * 100 / span + 1);
    }
  }

  /** What a mouse press and a drag change about the board's inputs: on the open panel each control its own and
      nothing else; on the bare screen the touch. */
  predicate InputRule(cfg: Config, s: State, e: Event, t: State)
    requires cfg.Valid()
  {
    var p, onPanel := cfg.Controls(), e.MouseDown? && !OnMore(cfg, e) && s.overlay == PanelOpen
                                      && PanelCard(WindowOf(cfg.board, cfg.scale)).Contains(e.x, e.y);
    && (t.charging != s.charging <==> onPanel && cfg.board.hasBattery && p.chgBtn.Contains(e.x, e.y))
    && (t.vbus != s.vbus <==> onPanel && cfg.board.hasBattery && p.usbBtn.Contains(e.x, e.y))
    && t.quadrant == (if onPanel && cfg.board.hasRotation && p.rotBtn.Contains(e.x, e.y) then (s.quadrant + 1) % 4 else s.quadrant)
    && t.battery == (if (onPanel && cfg.board.hasBattery && p.batBar.Contains(e.x, e.y))
                        || (e.MouseMotion? && !s.touching && s.dragging) then BatteryOf(cfg, e.x) else s.battery)
    && (t.touchX, t.touchY) == (if (OnDevice(cfg, s, e) && ScreenOf(cfg.board, cfg.scale).Contains(e.x, e.y))
                                   || (e.MouseMotion? && s.touching) then TouchOf(cfg, e.x, e.y) else (s.touchX, s.touchY))
  }

  /** No point is on two of the panel's controls. */
  lemma OneControl(cfg: Config, x: int, y: int)
    requires cfg.Valid() && cfg.Window().w >= 0 && cfg.Window().h >= 0
    ensures var p := cfg.Controls();
            && (p.batBar.Contains(x, y) ==> !p.chgBtn.Contains(x, y) && !p.usbBtn.Contains(x, y) && !p.rotBtn.Contains(x, y))
            && (p.chgBtn.Contains(x, y) ==> !p.usbBtn.Contains(x, y) && !p.rotBtn.Contains(x, y))
            && (p.usbBtn.Contains(x, y) ==> !p.rotBtn.Contains(x, y))
  {
    hide PanelOf, WindowOf;
    PanelControls(cfg.Window(), cfg.board.hasBattery, cfg.board.hasRotation);
    var c := cfg.Controls().Controls();
    assert c[0] != NO_RECT && c[2] != NO_RECT ==> c[0].x + c[0].w <= c[2].x;
    assert c[0] != NO_RECT && c[3] != NO_RECT ==> c[0].x + c[0].w <= c[3].x;
    assert c[0] != NO_RECT && c[4] != NO_RECT ==> c[0].x + c[0].w <= c[4].x;
    assert c[2] != NO_RECT && c[3] != NO_RECT ==> c[2].x + c[2].w <= c[3].x;
    assert c[2] != NO_RECT && c[4] != NO_RECT ==> c[2].x + c[2].w <= c[4].x;
    assert c[3] != NO_RECT && c[4] != NO_RECT ==> c[3].x + c[3].w <= c[4].x;
  }

  lemma WindowHasRoom(cfg: Config)
    requires cfg.Valid()
    ensures cfg.Window().w >= 0 && cfg.Window().h >= 0
  {
    assert cfg.board.width * cfg.scale >= 0 && cfg.board.height * cfg.scale >= 0;
  }

  lemma PanelClickInputs(cfg: Config, s: State, x: int, y: int)
    requires cfg.Valid()
    ensures var t, p, card := PanelClick(cfg, s, x, y), cfg.Controls(), PanelCard(cfg.Window()).Contains(x, y);
            && (t.charging != s.charging <==> card && cfg.board.hasBattery && p.chgBtn.Contains(x, y))
            && (t.vbus != s.vbus <==> card && cfg.board.hasBattery && p.usbBtn.Contains(x, y))
            && t.quadrant == (if card && cfg.board.hasRotation && p.rotBtn.Contains(x, y) then (s.quadrant + 1) % 4 else s.quadrant)
            && t.battery == (if card && cfg.board.hasBattery && p.batBar.Contains(x, y) then BatteryOf(cfg, x) else s.battery)
            && t.touchX == s.touchX && t.touchY == s.touchY
  {
    WindowHasRoom(cfg);
    OneControl(cfg, x, y);
    hide PanelCard, WindowOf, PanelOf, BatteryOf, WinRect.Contains, Close;
    CloseKeepsInputs(s);
  }

  lemma MouseDownInputs(cfg: Config, s: State, i: Input)
    requires cfg.Valid() && i.event.MouseDown?
    ensures InputRule(cfg, s, i.event, OnMouseDown(cfg, s, i.event.x, i.event.y, i.now))
  {
    hide PanelCard, PanelOf, BatteryOf, MoreNubOf, ScreenOf, TouchOf, NubHit, PanelClick, Open, Close, Press, WinRect.Contains;
    var x, y, d := i.event.x, i.event.y, s.(lmb := true);
    PanelClickInputs(cfg, d, x, y);
    OpenKeepsInputs(cfg, d, PanelOpen);
    CloseKeepsInputs(d);
    PressKeepsInputs(cfg, d, i.now);
  }

  predicate SameInputs(s: State, t: State) {
    && t.charging == s.charging && t.vbus == s.vbus && t.quadrant == s.quadrant && t.battery == s.battery
    && t.touchX == s.touchX && t.touchY == s.touchY
  }

  lemma OpenKeepsInputs(cfg: Config, s: State, overlay: Overlay)
    ensures SameInputs(s, Open(cfg, s, overlay))
  {
  }

  lemma CloseKeepsInputs(s: State)
    ensures SameInputs(s, Close(s))
  {
  }

  lemma PressKeepsInputs(cfg: Config, s: State, now: nat)
    ensures forall p: set<nat> :: SameInputs(s, Press(cfg, s, p, now))
  {
  }

  lemma KeysKeepInputs(cfg: Config, s: State, i: Input)
    requires cfg.Valid() && !i.event.MouseDown? && !i.event.MouseMotion?
    ensures SameInputs(s, Step(cfg, s, i))
  {
    hide CountPwr, OnKeyDown, Matching, PwrHeld, TouchOf, BatteryOf, OnMouseDown, HeldSet;
    if i.event.KeyDown? {
      KeyDownKeepsInputs(cfg, s, i);
    }
  }

  lemma KeyDownKeepsInputs(cfg: Config, s: State, i: Input)
    requires i.event.KeyDown?
    ensures SameInputs(s, OnKeyDown(cfg, s, i.event.sym, i.event.again, i.now))
  {
    hide Open, Close, Press, Matching;
    OpenKeepsInputs(cfg, s, PanelOpen);
    OpenKeepsInputs(cfg, s, Help);
    CloseKeepsInputs(s);
    PressKeepsInputs(cfg, s, i.now);
  }

  lemma InputsFollowRule(cfg: Config, s: State, i: Input)
    requires cfg.Valid()
    ensures InputRule(cfg, s, i.event, Step(cfg, s, i))
  {
    hide PanelCard, WindowOf, PanelOf, BatteryOf, MoreNubOf, ScreenOf, TouchOf, OnMouseDown, OnKeyDown, CountPwr;
    if i.event.MouseDown? {
      MouseDownInputs(cfg, s, i);
    } else if !i.event.MouseMotion? {
      hide OnKeyUp, OnMouseUp, OnFrameEnd;
      KeysKeepInputs(cfg, s, i);
    }
  }

  /** A press on the bar starts a drag, which lasts while the panel stays open and the button down. */
  lemma DragLasts(cfg: Config, s: State, i: Input)
    requires cfg.Valid() && Inv(cfg, s)
    ensures var e := i.event;
            Step(cfg, s, i).dragging <==>
              && s.overlay == PanelOpen && OverlayThen(cfg, s, e) == PanelOpen && !e.MouseUp?
              && (s.dragging || (e.MouseDown? && !OnMore(cfg, e) && cfg.board.hasBattery && cfg.Controls().batBar.Contains(e.x, e.y)))
  {
    hide PanelCard, PanelOf, BatteryOf, MoreNubOf, ScreenOf, TouchOf, NubHit, CountPwr, WinRect.Contains, WindowOf, OnMouseDown, OnKeyDown,
         OverlayThen;
    EventsFollowRule(cfg, s, i);
    if i.event.MouseDown? {
      MouseDownDrag(cfg, s, i);
    } else if i.event.KeyDown? {
      KeyDownDrag(cfg, s, i);
    }
  }

  lemma MouseDownDrag(cfg: Config, s: State, i: Input)
    requires cfg.Valid() && Inv(cfg, s) && i.event.MouseDown?
    ensures var e, t := i.event, OnMouseDown(cfg, s, i.event.x, i.event.y, i.now);
            t.dragging <==>
              && s.overlay == PanelOpen && t.overlay == PanelOpen
              && (s.dragging || (!OnMore(cfg, e) && cfg.board.hasBattery && cfg.Controls().batBar.Contains(e.x, e.y)))
  {
    hide PanelCard, PanelOf, BatteryOf, MoreNubOf, ScreenOf, TouchOf, NubHit, Press, CountPwr, WinRect.Contains, WindowOf;
    PressKeepsDrag(cfg, s.(lmb := true), i.now);
  }

  lemma PressKeepsDrag(cfg: Config, s: State, now: nat)
    ensures forall p: set<nat> :: var t := Press(cfg, s, p, now); t.dragging == s.dragging && t.overlay == s.overlay
  {
  }

  lemma KeyDownDrag(cfg: Config, s: State, i: Input)
    requires Inv(cfg, s) && i.event.KeyDown?
    ensures var t := OnKeyDown(cfg, s, i.event.sym, i.event.again, i.now);
            t.dragging <==> s.overlay == PanelOpen && t.overlay == PanelOpen && s.dragging
  {
    hide CountPwr, Press, Matching;
    PressKeepsDrag(cfg, s, i.now);
  }

  lemma FirstHitIs(cfg: Config, x: int, y: int)
    ensures FirstHit(cfg, x, y, NubHit(cfg, 0, x, y))
  {
    hide NubAt;
    NubHitRange(cfg, 0, x, y);
  }

  // ---- Every run ----

  /** What holds between events. */
  ghost predicate Inv(cfg: Config, s: State) {
    && -1 <= s.mouse < cfg.Nubs()
    && (forall i :: i in s.keys ==> i < cfg.Nubs())
    && (s.overlay != Closed ==> s.mouse == -1 && s.keys == {} && !s.touching)
    && (s.overlay == PanelOpen ==> cfg.HasPanel())
    && (s.dragging ==> s.overlay == PanelOpen && cfg.board.hasBattery)
    && (!s.lmb ==> s.mouse == -1 && !s.touching && !s.dragging)
    && (s.touching ==> s.mouse == -1)
    && 0 <= s.touchX < cfg.board.width && 0 <= s.touchY < cfg.board.height
    && 0 <= s.battery <= 100 && 0 <= s.quadrant <= 3
  }

  /** The left button goes down only when it is up. */
  predicate Physical(s: State, i: Input) { i.event.MouseDown? ==> !s.lmb }

  ghost predicate Alternating(cfg: Config, s: State, inputs: seq<Input>)
    requires cfg.Valid()
    decreases |inputs|
  {
    inputs != [] ==> Physical(s, inputs[0]) && Alternating(cfg, Step(cfg, s, inputs[0]), inputs[1..])
  }

  lemma NubHitRange(cfg: Config, i: nat, x: int, y: int)
    ensures var k := NubHit(cfg, i, x, y);
            && -1 <= k < cfg.Nubs()
            && (k >= 0 ==> i <= k && NubAt(cfg.board, cfg.scale, k).hit.Contains(x, y))
            && (forall j :: i <= j < (if k >= 0 then k else cfg.Nubs()) ==> !NubAt(cfg.board, cfg.scale, j).hit.Contains(x, y))
    decreases cfg.Nubs() - i
  {
    hide NubAt;
    if i < cfg.Nubs() {
      NubHitRange(cfg, i + 1, x, y);
    }
  }

  lemma OpenKeepsInv(cfg: Config, s: State, overlay: Overlay)
    requires Inv(cfg, s) && overlay != Closed && (overlay == PanelOpen ==> cfg.HasPanel())
    ensures Inv(cfg, Open(cfg, s, overlay))
  {
  }

  lemma CloseKeepsInv(cfg: Config, s: State)
    requires Inv(cfg, s)
    ensures Inv(cfg, Close(s))
  {
  }

  lemma PanelClickKeepsInv(cfg: Config, s: State, x: int, y: int)
    requires Inv(cfg, s) && s.overlay == PanelOpen && s.lmb
    ensures Inv(cfg, PanelClick(cfg, s, x, y))
  {
    hide BatteryOf, PanelCard, PanelOf, WindowOf;
    BatteryInRange(cfg, x);
  }

  lemma DeviceClickKeepsInv(cfg: Config, s: State, x: int, y: int, now: nat)
    requires cfg.Valid() && Inv(cfg, s) && s.overlay == Closed && s.lmb
    requires s.mouse == -1 && !s.touching && !s.dragging
    ensures Inv(cfg, DeviceClick(cfg, s, x, y, now))
  {
    hide TouchOf, ScreenOf, NubAt;
    NubHitRange(cfg, 0, x, y);
    TouchInRange(cfg, x, y);
  }

  lemma MouseDownKeepsInv(cfg: Config, s: State, x: int, y: int, now: nat)
    requires cfg.Valid() && Inv(cfg, s) && !s.lmb
    ensures Inv(cfg, OnMouseDown(cfg, s, x, y, now))
  {
    hide MoreNubOf, ReleaseAll, PanelClick, DeviceClick;
    var d := s.(lmb := true);
    if cfg.HasPanel() {
      OpenKeepsInv(cfg, d, PanelOpen);
    }
    if s.overlay == PanelOpen {
      PanelClickKeepsInv(cfg, d, x, y);
    }
    if s.overlay == Closed {
      DeviceClickKeepsInv(cfg, d, x, y, now);
    }
  }

  lemma KeyDownKeepsInv(cfg: Config, s: State, sym: int, again: bool, now: nat)
    requires Inv(cfg, s)
    ensures Inv(cfg, OnKeyDown(cfg, s, sym, again, now))
  {
    hide Open, Close;
    CloseKeepsInv(cfg, s);
    OpenKeepsInv(cfg, s, Help);
    if cfg.HasPanel() {
      OpenKeepsInv(cfg, s, PanelOpen);
    }
  }

  lemma StepKeepsInv(cfg: Config, s: State, i: Input)
    requires cfg.Valid() && Inv(cfg, s) && Physical(s, i)
    ensures Inv(cfg, Step(cfg, s, i))
  {
    hide BatteryOf, TouchOf, OnMouseDown, OnKeyDown, CountPwr;
    match i.event
    case MouseDown(x, y) => MouseDownKeepsInv(cfg, s, x, y, i.now);
    case MouseMotion(x, y) =>
      TouchInRange(cfg, x, y);
      BatteryInRange(cfg, x);
    case KeyDown(sym, again) => KeyDownKeepsInv(cfg, s, sym, again, i.now);
    case MouseUp =>
    case KeyUp(sym) =>
    case FrameEnd =>
    case Quit =>
    case Other =>
  }

  lemma TouchInRange(cfg: Config, x: int, y: int)
    requires cfg.Valid()
    ensures 0 <= TouchOf(cfg, x, y).0 < cfg.board.width && 0 <= TouchOf(cfg, x, y).1 < cfg.board.height
  {
  }

  lemma BatteryInRange(cfg: Config, x: int)
    ensures 0 <= BatteryOf(cfg, x) <= 100
  {
  }

  lemma {:induction false} RunKeepsInv(cfg: Config, s: State, inputs: seq<Input>)
    requires cfg.Valid() && Inv(cfg, s) && Alternating(cfg, s, inputs)
    ensures Inv(cfg, Run(cfg, s, inputs))
    decreases |inputs|
  {
    hide Inv, Step;
    if inputs != [] {
      StepKeepsInv(cfg, s, inputs[0]);
      RunKeepsInv(cfg, Step(cfg, s, inputs[0]), inputs[1..]);
    }
  }

  /** A click on the screen touches the very pixel under it: the clamps are for motion only. */
  lemma TouchIsPixel(cfg: Config, x: int, y: int)
    requires cfg.Valid() && ScreenOf(cfg.board, cfg.scale).Contains(x, y)
    ensures var s, t := ScreenOf(cfg.board, cfg.scale), TouchOf(cfg, x, y);
            && t.0 * cfg.scale <= x - s.x < (t.0 + 1) * cfg.scale
            && t.1 * cfg.scale <= y - s.y < (t.1 + 1) * cfg.scale
  {
    var s := ScreenOf(cfg.board, cfg.scale);
    CellOf(x - s.x, cfg.scale, cfg.board.width);
    CellOf(y - s.y, cfg.scale, cfg.board.height);
  }

  lemma CellOf(v: int, scale: int, size: int)
    requires scale >= 1 && 0 <= v < size * scale
    ensures 0 <= v / scale < size && (v / scale) * scale <= v < (v / scale + 1) * scale
  {
    var q := v / scale;
    assert scale * q <= v < scale * q + scale;
    assert q >= size ==> scale * q >= scale * size;
  }

  /** Every event of a run does what its rules say, in the state the events before it left. */
  ghost predicate FollowsRules(cfg: Config, s: State, inputs: seq<Input>)
    requires cfg.Valid()
  {
    forall k :: 0 <= k < |inputs| ==>
      var before, after := Run(cfg, s, inputs[..k]), Run(cfg, s, inputs[..k + 1]);
      EventRule(cfg, before, inputs[k].event, after) && InputRule(cfg, before, inputs[k].event, after)
  }

  lemma RunsFollowRules(cfg: Config, s: State, inputs: seq<Input>)
    requires cfg.Valid()
    ensures FollowsRules(cfg, s, inputs)
  {
    hide EventRule, InputRule, Step;
    forall k | 0 <= k < |inputs|
      ensures var before, after := Run(cfg, s, inputs[..k]), Run(cfg, s, inputs[..k + 1]);
              EventRule(cfg, before, inputs[k].event, after) && InputRule(cfg, before, inputs[k].event, after)
    {
      var before := Run(cfg, s, inputs[..k]);
      RunSnoc(cfg, s, inputs[..k], inputs[k]);
      assert inputs[..k] + [inputs[k]] == inputs[..k + 1];
      EventsFollowRule(cfg, before, inputs[k]);
      InputsFollowRule(cfg, before, inputs[k]);
    }
  }

  // ---- The power button ----

  /** p is the board's one power control. */
  ghost predicate OnePwr(cfg: Config, p: nat) {
    cfg.IsPwr(p) && forall i :: cfg.IsPwr(i) ==> i == p
  }

  lemma CountOne(cfg: Config, p: nat, n: nat, chosen: set<nat>)
    requires OnePwr(cfg, p)
    ensures CountPwr(cfg, n, chosen) == if p < n && p in chosen then 1 else 0
  {
  }

  /** The event is a press of p by either source. */
  predicate PressesPwr(cfg: Config, p: nat, s: State, i: Input) {
    match i.event
    case MouseDown(x, y) =>
      && !(cfg.HasPanel() && MoreNubOf(cfg.board, cfg.scale).Contains(x, y)) && s.overlay == Closed
      && !ScreenOf(cfg.board, cfg.scale).Contains(x, y) && NubHit(cfg, 0, x, y) == p
    case KeyDown(sym, again) =>
      && sym !in {KEY_ESCAPE, KEY_BACKQUOTE, KEY_SLASH, KEY_H} && !again && s.overlay == Closed
      && cfg.Shortcut(p, sym)
    case _ => false
  }

  /** The four things one event can do to the power button. */
  predicate PwrEffect(p: nat, s: State, t: State, pressed: bool) {
    if pressed then t.Held(p) && !t.longSent && t.queue == s.queue
    else if s.Held(p) && !t.Held(p) then t.longSent == s.longSent && t.queue == s.queue + [s.Edge()]
    else
      && t.Held(p) == s.Held(p)
      && (|| (t.longSent == s.longSent && t.queue == s.queue)
          || (s.Held(p) && !s.longSent && t.longSent && t.queue == s.queue + [2]))
  }

  predicate PwrStep(cfg: Config, p: nat, s: State, i: Input)
    requires cfg.Valid()
  {
    PwrEffect(p, s, Step(cfg, s, i), PressesPwr(cfg, p, s, i))
  }

  lemma OpenEffect(cfg: Config, p: nat, s: State, overlay: Overlay)
    requires OnePwr(cfg, p)
    ensures PwrEffect(p, s, Open(cfg, s, overlay), false)
  {
    hide CountPwr;
    CountOne(cfg, p, cfg.Nubs(), HeldSet(cfg, s));
  }

  lemma PanelClickEffect(cfg: Config, p: nat, s: State, x: int, y: int)
    ensures PwrEffect(p, s, PanelClick(cfg, s, x, y), false)
  {
    hide PanelClick;
  }

  lemma DeviceClickEffect(cfg: Config, p: nat, s: State, x: int, y: int, now: nat)
    requires cfg.Valid() && OnePwr(cfg, p) && s.mouse == -1
    ensures PwrEffect(p, s, DeviceClick(cfg, s, x, y, now),
                      !ScreenOf(cfg.board, cfg.scale).Contains(x, y) && NubHit(cfg, 0, x, y) == p)
  {
    hide TouchOf, ScreenOf, NubAt;
    NubHitRange(cfg, 0, x, y);
  }

  lemma MouseDownEffect(cfg: Config, p: nat, s: State, i: Input)
    requires cfg.Valid() && Inv(cfg, s) && !s.lmb && OnePwr(cfg, p) && i.event.MouseDown?
    ensures PwrStep(cfg, p, s, i)
  {
    hide MoreNubOf, ScreenOf, Open, PanelClick, DeviceClick, NubHit;
    var d := s.(lmb := true);
    OpenEffect(cfg, p, d, PanelOpen);
    PanelClickEffect(cfg, p, d, i.event.x, i.event.y);
    DeviceClickEffect(cfg, p, d, i.event.x, i.event.y, i.now);
  }

  lemma KeyDownEffect(cfg: Config, p: nat, s: State, i: Input)
    requires cfg.Valid() && OnePwr(cfg, p) && i.event.KeyDown?
    ensures PwrStep(cfg, p, s, i)
  {
    hide Open, Close;
    OpenEffect(cfg, p, s, PanelOpen);
    OpenEffect(cfg, p, s, Help);
    KeyPressEffect(cfg, p, s, i.event.sym, i.now);
  }

  lemma KeyPressEffect(cfg: Config, p: nat, s: State, sym: int, now: nat)
    requires OnePwr(cfg, p)
    ensures PwrEffect(p, s, Press(cfg, s, Matching(cfg, sym), now).(keys := s.keys + Matching(cfg, sym)),
                      cfg.Shortcut(p, sym))
  {
    assert p in Matching(cfg, sym) <==> cfg.Shortcut(p, sym);
  }

  lemma PwrSteps(cfg: Config, p: nat, s: State, i: Input)
    requires cfg.Valid() && Inv(cfg, s) && Physical(s, i) && OnePwr(cfg, p)
    ensures PwrStep(cfg, p, s, i)
  {
    hide BatteryOf, TouchOf, OnMouseDown, OnKeyDown, CountPwr;
    assert PwrHeld(cfg, s) <==> s.Held(p);
    match i.event
    case MouseDown(x, y) => MouseDownEffect(cfg, p, s, i);
    case KeyDown(sym, again) => KeyDownEffect(cfg, p, s, i);
    case KeyUp(sym) => CountOne(cfg, p, cfg.Nubs(), s.keys * Matching(cfg, sym) - {s.mouse});
    case MouseUp =>
    case MouseMotion(x, y) =>
    case FrameEnd =>
    case Quit =>
    case Other =>
  }

  /** A press starts the timer anew, and the long edge goes out exactly at the first end of a frame that finds the
      button held for 1500 ms or more since, on a clock of 32 bits. */
  lemma LongEdgeTimed(cfg: Config, p: nat, s: State, i: Input)
    requires cfg.Valid() && Inv(cfg, s) && Physical(s, i) && OnePwr(cfg, p)
    ensures var t := Step(cfg, s, i);
            && t.pwrDownAt == (if PressesPwr(cfg, p, s, i) then i.now else s.pwrDownAt)
            && (t.queue == s.queue + [2] <==>
                  i.event.FrameEnd? && s.Held(p) && !s.longSent && (i.now - s.pwrDownAt) % 0x1_0000_0000 >= 1500)
  {
    hide BatteryOf, TouchOf, OnMouseDown, OnKeyDown, CountPwr;
    assert PwrHeld(cfg, s) <==> s.Held(p);
    PwrSteps(cfg, p, s, i);
    QueuesDiffer(s.queue, s.Edge());
    match i.event
    case MouseDown(x, y) => MouseDownTimer(cfg, p, s, i);
    case KeyDown(sym, again) => KeyDownTimer(cfg, p, s, i);
    case KeyUp(sym) => CountOne(cfg, p, cfg.Nubs(), s.keys * Matching(cfg, sym) - {s.mouse});
    case _ =>
  }

  lemma QueuesDiffer(q: seq<int>, edge: int)
    ensures q != q + [2] && (edge != 2 ==> q + [edge] != q + [2])
  {
    assert (q + [edge])[|q|] == edge && (q + [2])[|q|] == 2;
  }

  /** The timer and the queue as they were, or with one release edge. */
  predicate NoPress(s: State, t: State) {
    t.pwrDownAt == s.pwrDownAt && (t.queue == s.queue || t.queue == s.queue + [s.Edge()])
  }

  lemma OpenIsNoPress(cfg: Config, p: nat, s: State, overlay: Overlay)
    requires OnePwr(cfg, p)
    ensures NoPress(s, Open(cfg, s, overlay))
  {
    hide CountPwr;
    CountOne(cfg, p, cfg.Nubs(), HeldSet(cfg, s));
  }

  lemma ClosingIsNoPress(cfg: Config, s: State, x: int, y: int)
    ensures NoPress(s, Close(s)) && NoPress(s, PanelClick(cfg, s, x, y))
  {
    ClosingQueues(s);
    hide Close, PanelCard, PanelOf, BatteryOf, WinRect.Contains, WindowOf, Config.Window, Config.Controls;
  }

  lemma ClosingQueues(s: State)
    ensures NoPress(s, Close(s))
  {
  }

  lemma PressStarts(cfg: Config, p: nat, s: State, pressed: set<nat>, now: nat)
    requires OnePwr(cfg, p)
    ensures var t := Press(cfg, s, pressed, now);
            t.queue == s.queue && t.pwrDownAt == if p in pressed then now else s.pwrDownAt
  {
  }

  lemma MouseDownTimer(cfg: Config, p: nat, s: State, i: Input)
    requires cfg.Valid() && OnePwr(cfg, p) && i.event.MouseDown?
    ensures var t := OnMouseDown(cfg, s, i.event.x, i.event.y, i.now);
            && t.pwrDownAt == (if PressesPwr(cfg, p, s, i) then i.now else s.pwrDownAt)
            && (t.queue == s.queue || t.queue == s.queue + [s.Edge()])
  {
    hide Open, Close, PanelClick, Press, MoreNubOf, ScreenOf, TouchOf, NubHit, WinRect.Contains;
    var x, y, d := i.event.x, i.event.y, s.(lmb := true);
    OpenIsNoPress(cfg, p, d, PanelOpen);
    ClosingIsNoPress(cfg, d, x, y);
    if NubHit(cfg, 0, x, y) >= 0 {
      PressStarts(cfg, p, d, {NubHit(cfg, 0, x, y)}, i.now);
    }
  }

  lemma KeyDownTimer(cfg: Config, p: nat, s: State, i: Input)
    requires OnePwr(cfg, p) && i.event.KeyDown?
    ensures var t := OnKeyDown(cfg, s, i.event.sym, i.event.again, i.now);
            && t.pwrDownAt == (if PressesPwr(cfg, p, s, i) then i.now else s.pwrDownAt)
            && (t.queue == s.queue || t.queue == s.queue + [s.Edge()])
  {
    assert p in Matching(cfg, i.event.sym) <==> cfg.Shortcut(p, i.event.sym);
    hide Open, Close, Press, Matching;
    OpenIsNoPress(cfg, p, s, PanelOpen);
    OpenIsNoPress(cfg, p, s, Help);
    ClosingIsNoPress(cfg, s, 0, 0);
    PressStarts(cfg, p, s, Matching(cfg, i.event.sym), i.now);
  }

  // Release edges, one per completed hold.

  function Releases(q: seq<int>): nat {
    if q == [] then 0
    else Releases(q[..|q| - 1]) + (if q[|q| - 1] == 1 || q[|q| - 1] == 3 then 1 else 0)
  }

  /** How often p stops being held along a run. */
  function Completed(cfg: Config, p: nat, s: State, inputs: seq<Input>): nat
    requires cfg.Valid()
    decreases |inputs|
  {
    if inputs == [] then 0
    else
      var t := Step(cfg, s, inputs[0]);
      (if s.Held(p) && !t.Held(p) then 1 else 0) + Completed(cfg, p, t, inputs[1..])
  }

  lemma ReleasesGrow(q: seq<int>, x: int)
    ensures Releases(q + [x]) == Releases(q) + (if x == 1 || x == 3 then 1 else 0)
  {
    assert (q + [x])[..|q|] == q;
  }

  /** Mouse and key may overlap and an overlay may open mid-hold: each completed hold injects exactly
      one release edge. */
  lemma {:induction false} OneReleasePerHold(cfg: Config, p: nat, s: State, inputs: seq<Input>)
    requires cfg.Valid() && OnePwr(cfg, p) && Inv(cfg, s) && Alternating(cfg, s, inputs)
    ensures Releases(Run(cfg, s, inputs).queue) == Releases(s.queue) + Completed(cfg, p, s, inputs)
    decreases |inputs|
  {
    hide Inv, Step, PressesPwr;
    if inputs != [] {
      var t := Step(cfg, s, inputs[0]);
      StepKeepsInv(cfg, s, inputs[0]);
      PwrSteps(cfg, p, s, inputs[0]);
      ReleasesGrow(s.queue, s.Edge());
      ReleasesGrow(s.queue, 2);
      OneReleasePerHold(cfg, p, t, inputs[1..]);
    }
  }

  // The grammar of the queue.

  datatype Reading = Ground | AfterLong | Broken

  function Read(r: Reading, x: int): Reading {
    match r
    case Ground => if x == 1 then Ground else if x == 2 then AfterLong else Broken
    case AfterLong => if x == 3 then Ground else Broken
    case Broken => Broken
  }

  /** Reads groups [1] and [2, 3]; a trailing [2] leaves the reader after the long edge. */
  function ReadAll(q: seq<int>): Reading {
    if q == [] then Ground else Read(ReadAll(q[..|q| - 1]), q[|q| - 1])
  }

  lemma ReadGrows(q: seq<int>, x: int)
    ensures ReadAll(q + [x]) == Read(ReadAll(q), x)
  {
    assert (q + [x])[..|q|] == q;
  }

  /** Complete groups, plus a trailing [2] exactly during a hold whose long edge is out. */
  predicate Grammatical(p: nat, s: State) {
    ReadAll(s.queue) == if s.Held(p) && s.longSent then AfterLong else Ground
  }

  /** A hold whose long edge was taken back by a second press: no continuation reads well again. */
  predicate Lost(p: nat, s: State) {
    || ReadAll(s.queue) == Broken
    || (ReadAll(s.queue) == AfterLong && s.Held(p) && !s.longSent)
  }

  /** A second source presses the button while its long edge is out. */
  predicate Restarts(cfg: Config, p: nat, s: State, i: Input) {
    PressesPwr(cfg, p, s, i) && s.Held(p) && s.longSent
  }

  predicate EverRestarts(cfg: Config, p: nat, s: State, inputs: seq<Input>)
    requires cfg.Valid()
    decreases |inputs|
  {
    inputs != [] && (Restarts(cfg, p, s, inputs[0]) || EverRestarts(cfg, p, Step(cfg, s, inputs[0]), inputs[1..]))
  }

  lemma GrammarStep(cfg: Config, p: nat, s: State, i: Input)
    requires cfg.Valid() && PwrStep(cfg, p, s, i)
    ensures Grammatical(p, s) && !Restarts(cfg, p, s, i) ==> Grammatical(p, Step(cfg, s, i))
    ensures Grammatical(p, s) && Restarts(cfg, p, s, i) ==> Lost(p, Step(cfg, s, i))
    ensures Lost(p, s) ==> Lost(p, Step(cfg, s, i))
  {
    hide Step, PressesPwr;
    ReadGrows(s.queue, s.Edge());
    ReadGrows(s.queue, 2);
  }

  /** The queue reads as groups exactly when no second press ever came after a long edge. */
  lemma {:induction false} QueueGrammar(cfg: Config, p: nat, s: State, inputs: seq<Input>)
    requires cfg.Valid() && OnePwr(cfg, p) && Inv(cfg, s) && Alternating(cfg, s, inputs)
    requires Grammatical(p, s)
    ensures Grammatical(p, Run(cfg, s, inputs)) <==> !EverRestarts(cfg, p, s, inputs)
    decreases |inputs|
  {
    hide Inv, Step, PressesPwr;
    if inputs != [] {
      var t := Step(cfg, s, inputs[0]);
      StepKeepsInv(cfg, s, inputs[0]);
      PwrSteps(cfg, p, s, inputs[0]);
      GrammarStep(cfg, p, s, inputs[0]);
      if Restarts(cfg, p, s, inputs[0]) {
        StaysLost(cfg, p, t, inputs[1..]);
      } else {
        QueueGrammar(cfg, p, t, inputs[1..]);
      }
    }
  }

  lemma {:induction false} StaysLost(cfg: Config, p: nat, s: State, inputs: seq<Input>)
    requires cfg.Valid() && OnePwr(cfg, p) && Inv(cfg, s) && Alternating(cfg, s, inputs)
    requires Lost(p, s)
    ensures Lost(p, Run(cfg, s, inputs)) && !Grammatical(p, Run(cfg, s, inputs))
    decreases |inputs|
  {
    hide Inv, Step, PressesPwr;
    if inputs != [] {
      StepKeepsInv(cfg, s, inputs[0]);
      PwrSteps(cfg, p, s, inputs[0]);
      GrammarStep(cfg, p, s, inputs[0]);
      StaysLost(cfg, p, Step(cfg, s, inputs[0]), inputs[1..]);
    }
  }

  /** Holds of the two sources never overlap. */
  predicate NeverOverlaps(cfg: Config, p: nat, s: State, inputs: seq<Input>)
    requires cfg.Valid()
    decreases |inputs|
  {
    inputs != [] ==>
      && !(PressesPwr(cfg, p, s, inputs[0]) && s.Held(p))
      && NeverOverlaps(cfg, p, Step(cfg, s, inputs[0]), inputs[1..])
  }

  lemma {:induction false} NoOverlapNoRestart(cfg: Config, p: nat, s: State, inputs: seq<Input>)
    requires cfg.Valid() && NeverOverlaps(cfg, p, s, inputs)
    ensures !EverRestarts(cfg, p, s, inputs)
    decreases |inputs|
  {
    hide Step, PressesPwr;
    if inputs != [] {
      NoOverlapNoRestart(cfg, p, Step(cfg, s, inputs[0]), inputs[1..]);
    }
  }

  /** The documented case: from the initial state, with holds that never overlap, the queue is groups
      [1] and [2, 3], with a trailing [2] only during a long hold. */
  lemma QueueOfSeparateHolds(cfg: Config, p: nat, inputs: seq<Input>)
    requires cfg.Valid() && OnePwr(cfg, p) && Alternating(cfg, INITIAL, inputs)
    requires NeverOverlaps(cfg, p, INITIAL, inputs)
    ensures Grammatical(p, Run(cfg, INITIAL, inputs))
  {
    NoOverlapNoRestart(cfg, p, INITIAL, inputs);
    QueueGrammar(cfg, p, INITIAL, inputs);
  }

  // A run that breaks the grammar.

  /** A board with one power button on its right edge, and p as its shortcut. */
  const ONE_PWR := Board(100, 100, false, false, [Button(Pwr, 0, 112, Right, -1.0, false)])
  const PWR_WINDOW := Config(ONE_PWR, 1)

  /** The key goes down, the long edge goes out, and the mouse presses the nub as well; then both let go. */
  const OVERLAPPING_HOLDS := [
    Input(KeyDown(112, false), 0), Input(FrameEnd, 1500), Input(MouseDown(150, 70), 1600),
    Input(MouseUp, 1700), Input(KeyUp(112), 1800)
  ]

  lemma PwrNubHit()
    ensures OnePwr(PWR_WINDOW, 0) && NubHit(PWR_WINDOW, 0, 150, 70) == 0
    ensures !ScreenOf(ONE_PWR, 1).Contains(150, 70)
  {
    assert AutoStart(0, 1, 40, 100) == 72;
  }

  // The states the run goes through.

  const KEY_HOLDS := INITIAL.(keys := {0})
  const LONG_OUT := KEY_HOLDS.(queue := [2], longSent := true)
  const BOTH_HOLD := LONG_OUT.(lmb := true, mouse := 0, pwrDownAt := 1600, longSent := false)
  const KEY_LEFT := BOTH_HOLD.(lmb := false, mouse := -1)

  lemma PwrKey()
    ensures Matching(PWR_WINDOW, 112) == {0}
  {
    assert PWR_WINDOW.Nubs() == 1 && PWR_WINDOW.Shortcut(0, 112);
    assert forall i: nat :: i in Matching(PWR_WINDOW, 112) <==> i in {0};
  }

  lemma KeySteps()
    ensures Step(PWR_WINDOW, INITIAL, OVERLAPPING_HOLDS[0]) == KEY_HOLDS
    ensures Step(PWR_WINDOW, KEY_HOLDS, OVERLAPPING_HOLDS[1]) == LONG_OUT
  {
    hide Matching;
    PwrKey();
    assert PWR_WINDOW.IsPwr(0) && KEY_HOLDS.Held(0);
  }

  lemma MouseSteps()
    ensures Step(PWR_WINDOW, LONG_OUT, OVERLAPPING_HOLDS[2]) == BOTH_HOLD
    ensures Restarts(PWR_WINDOW, 0, LONG_OUT, OVERLAPPING_HOLDS[2])
    ensures Step(PWR_WINDOW, BOTH_HOLD, OVERLAPPING_HOLDS[3]) == KEY_LEFT
  {
    hide NubHit, ScreenOf, MoreNubOf;
    PwrNubHit();
    assert 0 in {0} && PWR_WINDOW.IsPwr(0);
  }

  lemma LastStep()
    ensures Step(PWR_WINDOW, KEY_LEFT, OVERLAPPING_HOLDS[4]) == KEY_LEFT.(keys := {}, queue := [2, 1])
  {
    hide Matching;
    PwrKey();
    assert {0} * {0} == {0} && {0} - {0} == {};
    CountOne(PWR_WINDOW, 0, 1, {0} - {KEY_LEFT.mouse});
  }

  /** Two holds that overlap, injected as a long press that never ends and a click. */
  lemma SecondPressSplitsTheHold()
    ensures OnePwr(PWR_WINDOW, 0) && Alternating(PWR_WINDOW, INITIAL, OVERLAPPING_HOLDS)
    ensures EverRestarts(PWR_WINDOW, 0, INITIAL, OVERLAPPING_HOLDS)
    ensures Run(PWR_WINDOW, INITIAL, OVERLAPPING_HOLDS).queue == [2, 1]
    ensures !Grammatical(0, Run(PWR_WINDOW, INITIAL, OVERLAPPING_HOLDS))
  {
    hide Step, Restarts, NubHit;
    var rest := OVERLAPPING_HOLDS;
    KeySteps();
    MouseSteps();
    LastStep();
    PwrNubHit();
    assert rest[1..][1..] == rest[2..] && rest[2..][1..] == rest[3..] && rest[3..][1..] == [rest[4]];
    ReadGrows([], 2);
    ReadGrows([2], 1);
  }
}
