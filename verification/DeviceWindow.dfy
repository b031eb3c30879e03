/** The window object and the injected input bus, refining the state machine of `SimWindow`.

    Every method keeps the source's own loops and flags. `Abs` is the abstract state they stand for, and
    `LinesMatch` ties each control's button flag or pin level to "held by the mouse or by a key".
 */
module DeviceWindow {
  import opened CLang
  import opened WindowLayout
  import opened SimWindow

  /** The pin level that stands for a control being pressed or not. */
  function LevelOf(b: Button, pressed: bool): int {
    if b.activeLow then (if pressed then 0 else 1) else (if pressed then 1 else 0)
  }

  predicate OnPin(b: Button) { b.action == Gpio && 0 <= b.gpio < PINS }

  predicate SameLine(a: Button, b: Button) {
    || (a.action == Primary && b.action == Primary)
    || (a.action == Secondary && b.action == Secondary)
    || (OnPin(a) && OnPin(b) && a.gpio == b.gpio)
  }

  /** The board's controls drive distinct inputs. */
  ghost predicate Distinct(board: Board) {
    forall i, j :: 0 <= i < j < |board.buttons| ==> !SameLine(board.buttons[i], board.buttons[j])
  }

  /** The virtual input bus and the simulated pins. */
  class InputBus {
    const button: array<bool>
    const gpio: array<int>
    var touchPressed: bool
    var touchX: int
    var touchY: int
    var batteryPct: int
    var charging: bool
    var vbus: bool
    var quadrant: int
    var pwrEvents: seq<int>

    ghost predicate Valid()
      reads this
    {
      button.Length == 4 && gpio.Length == PINS
    }

    /** The control's own flag or pin says `pressed`. A power control or a pin off the chip has none. */
    predicate LineAt(b: Button, pressed: bool)
      requires Valid()
      reads this, button, gpio
    {
      match b.action
      case Primary => button[0] == pressed
      case Secondary => button[1] == pressed
      case Gpio => 0 <= b.gpio < PINS ==> gpio[b.gpio] == LevelOf(b, pressed)
      case Pwr => true
    }

    constructor ()
      ensures Valid() && fresh(button) && fresh(gpio)
      ensures !touchPressed && touchX == 0 && touchY == 0 && batteryPct == 75 && !charging && vbus
      ensures quadrant == 0 && pwrEvents == []
      ensures forall k :: 0 <= k < 4 ==> !button[k]
    {
      button := new bool[4](_ => false);
      gpio := new int[PINS](_ => 0);
      touchPressed, touchX, touchY := false, 0, 0;
      batteryPct, charging, vbus, quadrant, pwrEvents := 75, false, true, 0, [];
    }

    method SetPin(pin: int, level: int)
      requires Valid()
      modifies gpio
      ensures 0 <= pin < PINS ==> gpio[..] == old(gpio[..])[pin := if level != 0 then 1 else 0]
      ensures !(0 <= pin < PINS) ==> gpio[..] == old(gpio[..])
    {
      if pin >= 0 && pin < PINS {
        gpio[pin] := if level != 0 then 1 else 0;
      }
    }

    /** The boot's pin reset and seeding: every pin that drives a control reads released, every other pin
        low. The button flags are left as they are. */
    method Boot(board: Board)
      requires Valid()
      modifies gpio
      ensures Distinct(board) ==> forall i :: 0 <= i < |board.buttons| && OnPin(board.buttons[i]) ==>
                LineAt(board.buttons[i], false)
      ensures Distinct(board) ==> forall i :: 0 <= i < |board.buttons| ==>
                var b := board.buttons[i];
                b.action == Gpio && 0 <= b.gpio < 64 ==> gpio[b.gpio] == if b.activeLow then 1 else 0
      ensures forall p :: 0 <= p < PINS && Unused(board, |board.buttons|, p) ==> gpio[p] == 0
      ensures Distinct(board) && !button[0] && !button[1] ==>
                forall i :: 0 <= i < |board.buttons| ==> LineAt(board.buttons[i], false)
    {
      var p := 0;
      while p < PINS
        invariant 0 <= p <= PINS
        invariant forall k :: 0 <= k < p ==> gpio[k] == 0
      {
        gpio[p] := 0;
        p := p + 1;
      }
      var i := 0;
      while i < |board.buttons|
        invariant 0 <= i <= |board.buttons|
        invariant Distinct(board) ==> forall k :: 0 <= k < i && OnPin(board.buttons[k]) ==> LineAt(board.buttons[k], false)
        invariant forall p :: 0 <= p < PINS && Unused(board, i, p) ==> gpio[p] == 0
      {
        Seed(board, i);
        i := i + 1;
      }
    }

    /** No control among the first n drives pin p. */
    static predicate Unused(board: Board, n: nat, p: int)
      requires n <= |board.buttons|
    {
      forall i :: 0 <= i < n && OnPin(board.buttons[i]) ==> board.buttons[i].gpio != p
    }

    /** One control's turn of the seeding. */
    method Seed(board: Board, i: nat)
      requires Valid() && i < |board.buttons|
      modifies gpio
      ensures OnPin(board.buttons[i]) ==>
                gpio[..] == old(gpio[..])[board.buttons[i].gpio := LevelOf(board.buttons[i], false)]
      ensures !OnPin(board.buttons[i]) ==> gpio[..] == old(gpio[..])
      ensures Distinct(board) ==> forall k :: 0 <= k < i && OnPin(board.buttons[k]) ==>
                LineAt(board.buttons[k], false) == old(LineAt(board.buttons[k], false))
    {
      var b := board.buttons[i];
      if b.action == Gpio {
        ghost var before := gpio[..];
        SetPin(b.gpio, LevelOf(b, false));
        forall k | 0 <= k < i && Distinct(board) && OnPin(board.buttons[k])
          ensures gpio[board.buttons[k].gpio] == before[board.buttons[k].gpio]
        {
          assert !SameLine(board.buttons[k], b);
          assert gpio[..][board.buttons[k].gpio] == before[board.buttons[k].gpio];
        }
      }
    }
  }

  class Window {
    const cfg: Config
    const input: InputBus
    const keyHeld: array<bool>
    var touching: bool
    var mouseHeld: int
    var pwrDownAt: nat
    var pwrLongSent: bool
    var batDragging: bool
    var helpOpen: bool
    var panelOpen: bool
    ghost var lmb: bool

    predicate Shape()
      reads this, input
    {
      && cfg.scale >= 1 && cfg.board.width >= 1 && cfg.board.height >= 1
      && input.button.Length == 4 && input.gpio.Length == PINS
      && keyHeld != input.button && keyHeld.Length == MAX_LAYOUT_BUTTONS
      && -1 <= mouseHeld < cfg.Nubs()
      && !(helpOpen && panelOpen) && input.touchPressed == touching
    }

    function Keys(): set<nat>
      requires keyHeld.Length == MAX_LAYOUT_BUTTONS
      reads keyHeld
    {
      set i | 0 <= i < cfg.Nubs() && keyHeld[i]
    }

    ghost function Abs(): State
      requires keyHeld.Length == MAX_LAYOUT_BUTTONS
      reads this, input, keyHeld
    {
      State(mouseHeld, Keys(), if helpOpen then Help else if panelOpen then PanelOpen else Closed,
            touching, batDragging, pwrDownAt, pwrLongSent, input.pwrEvents, input.touchX, input.touchY,
            input.batteryPct, input.charging, input.vbus, input.quadrant, lmb)
    }

    ghost predicate Valid()
      reads this, input, keyHeld
    {
      Shape() && Inv(cfg, Abs())
    }

    predicate HeldAt(i: nat)
      requires i < MAX_LAYOUT_BUTTONS == keyHeld.Length
      reads this, keyHeld
    {
      mouseHeld == i || keyHeld[i]
    }

    /** Each control's flag or level equals "held by the mouse or by a key". */
    ghost predicate LinesMatch()
      requires Shape()
      reads this, input, keyHeld, input.button, input.gpio
    {
      forall i :: 0 <= i < cfg.Nubs() ==> input.LineAt(cfg.board.buttons[i], HeldAt(i))
    }

    /** Each control's own input, by the board's fields, says whether the control is held in state s. */
    ghost predicate InputsSay(s: State)
      requires Shape()
      reads this, input, input.button, input.gpio
    {
      forall i :: 0 <= i < cfg.Nubs() ==>
        var b, held := cfg.board.buttons[i], s.mouse == i || i in s.keys;
        && (b.action == Primary ==> input.button[0] == held)
        && (b.action == Secondary ==> input.button[1] == held)
        && (b.action == Gpio && 0 <= b.gpio < 64 ==> input.gpio[b.gpio] == if held == b.activeLow then 0 else 1)
    }

    lemma LinesSay()
      requires Shape() && LinesMatch()
      ensures InputsSay(Abs())
    {
      forall i | 0 <= i < cfg.Nubs()
        ensures HeldAt(i) <==> mouseHeld == i || i in Keys()
      {
      }
    }

    constructor (config: Config, bus: InputBus)
      requires config.Valid() && bus.Valid()
      requires !bus.touchPressed && 0 <= bus.batteryPct <= 100 && 0 <= bus.quadrant <= 3
      requires 0 <= bus.touchX < config.board.width && 0 <= bus.touchY < config.board.height
      requires forall i :: 0 <= i < Count(config.board) ==> bus.LineAt(config.board.buttons[i], false)
      ensures Valid() && cfg == config && input == bus && fresh(keyHeld) && LinesMatch()
      ensures Abs() == INITIAL.(queue := bus.pwrEvents, touchX := bus.touchX, touchY := bus.touchY, battery := bus.batteryPct,
                                charging := bus.charging, vbus := bus.vbus, quadrant := bus.quadrant)
    {
      cfg, input := config, bus;
      keyHeld := new bool[MAX_LAYOUT_BUTTONS](_ => false);
      touching, mouseHeld, pwrDownAt, pwrLongSent := false, -1, 0, false;
      batDragging, helpOpen, panelOpen, lmb := false, false, false, false;
    }

    /** Driving control i's line leaves every other control's line alone. */
    twostate predicate OnlyLine(i: nat, pressed: bool)
      requires Shape() && old(Shape())
      requires i < |cfg.board.buttons|
      reads this, input, input.button, input.gpio
    {
      && input.LineAt(cfg.board.buttons[i], pressed)
      && (Distinct(cfg.board) ==>
            forall j, v :: 0 <= j < |cfg.board.buttons| && j != i ==>
              input.LineAt(cfg.board.buttons[j], v) == old(input.LineAt(cfg.board.buttons[j], v)))
    }

    method DrivePin(i: nat, pressed: bool)
      requires Shape() && i < cfg.Nubs() && cfg.board.buttons[i].action == Gpio
      modifies input.gpio
      ensures Shape() && OnlyLine(i, pressed)
    {
      var b := cfg.board.buttons[i];
      ghost var before := input.gpio[..];
      input.SetPin(b.gpio, LevelOf(b, pressed));
      PinFrame(before, input.gpio[..], b, LevelOf(b, pressed));
      OthersDiffer(cfg.board, i);
    }

    method PressAction(i: nat, now: nat)
      requires Shape() && i < cfg.Nubs()
      modifies input.button, input.gpio, this`pwrDownAt, this`pwrLongSent
      ensures Shape() && OnlyLine(i, true)
      ensures if cfg.IsPwr(i) then pwrDownAt == now && !pwrLongSent
              else pwrDownAt == old(pwrDownAt) && pwrLongSent == old(pwrLongSent)
    {
      var b := cfg.board.buttons[i];
      match b.action {
        case Primary => input.button[0] := true;
        case Secondary => input.button[1] := true;
        case Gpio => DrivePin(i, true);
        case Pwr => pwrDownAt, pwrLongSent := now, false;
      }
      OthersDiffer(cfg.board, i);
    }

    method ReleaseAction(i: nat)
      requires Shape() && i < cfg.Nubs()
      modifies input.button, input.gpio, input`pwrEvents
      ensures Shape() && OnlyLine(i, false)
      ensures input.pwrEvents == old(input.pwrEvents) + (if cfg.IsPwr(i) then [if pwrLongSent then 3 else 1] else [])
    {
      var b := cfg.board.buttons[i];
      match b.action {
        case Primary => input.button[0] := false;
        case Secondary => input.button[1] := false;
        case Gpio => DrivePin(i, false);
        case Pwr => input.pwrEvents := input.pwrEvents + [if pwrLongSent then 3 else 1];
      }
      OthersDiffer(cfg.board, i);
    }

    lemma PinFrame(before: seq<int>, after: seq<int>, b: Button, level: int)
      requires |before| == |after| == PINS && b.action == Gpio
      requires after == if OnPin(b) then before[b.gpio := level] else before
      ensures forall k :: 0 <= k < PINS ==> after[k] == if k == b.gpio then level else before[k]
    {
    }

    lemma OthersDiffer(board: Board, i: nat)
      requires i < |board.buttons|
      ensures Distinct(board) ==>
                forall j :: 0 <= j < |board.buttons| && j != i ==> !SameLine(board.buttons[j], board.buttons[i])
    {
    }

    method PwrIsHeld() returns (held: bool)
      requires Shape()
      ensures held == PwrHeld(cfg, Abs())
    {
      var i := 0;
      while i < cfg.Nubs()
        invariant 0 <= i <= cfg.Nubs()
        invariant forall k :: 0 <= k < i ==> !(cfg.IsPwr(k) && Abs().Held(k))
      {
        if cfg.board.buttons[i].action == Pwr && (mouseHeld == i || keyHeld[i]) {
          assert cfg.IsPwr(i) && Abs().Held(i);
          return true;
        }
        i := i + 1;
      }
      held := false;
    }

    /** The key loop of release_all_holds and of a key going up: every chosen held key below n is dropped,
        and the control's line with it unless the mouse still holds it. */
    method DropKeys(chosen: set<nat>)
      requires Shape()
      modifies keyHeld, input.button, input.gpio, input`pwrEvents
      ensures Shape() && Keys() == old(Keys()) - chosen
      ensures Distinct(cfg.board) && old(LinesMatch()) ==> LinesMatch()
      ensures input.pwrEvents == old(input.pwrEvents) +
                Repeat(if pwrLongSent then 3 else 1, CountPwr(cfg, cfg.Nubs(), old(Keys()) * chosen - {mouseHeld}))
    {
      hide Distinct, LevelOf, SameLine;
      ghost var start, edge := Keys(), if pwrLongSent then 3 else 1;
      var i := 0;
      while i < cfg.Nubs()
        invariant 0 <= i <= cfg.Nubs() && Shape()
        invariant forall k :: 0 <= k < MAX_LAYOUT_BUTTONS ==>
                    keyHeld[k] == (old(keyHeld[k]) && !(k < i && k in chosen))
        invariant Distinct(cfg.board) && old(LinesMatch()) ==> LinesMatch()
        invariant input.pwrEvents == old(input.pwrEvents) + Repeat(edge, CountPwr(cfg, i, start * chosen - {mouseHeld}))
      {
        assert i in start <==> keyHeld[i];
        if i in chosen && keyHeld[i] {
          keyHeld[i] := false;
          if mouseHeld != i {
            ReleaseAction(i);
          }
        }
        i := i + 1;
      }
    }

    /** The mouse lets go: the line falls unless a key still holds the control. */
    method DropMouse()
      requires Shape()
      modifies this`mouseHeld, input.button, input.gpio, input`pwrEvents
      ensures Shape() && mouseHeld == -1
      ensures Distinct(cfg.board) && old(LinesMatch()) ==> LinesMatch()
      ensures input.pwrEvents == old(input.pwrEvents) +
                (if old(mouseHeld) >= 0 && old(mouseHeld) !in Keys() && cfg.IsPwr(old(mouseHeld))
                 then [if pwrLongSent then 3 else 1] else [])
    {
      if mouseHeld >= 0 {
        var i := mouseHeld;
        mouseHeld := -1;
        if !keyHeld[i] {
          ReleaseAction(i);
          assert forall j :: 0 <= j < cfg.Nubs() && j != i ==> HeldAt(j) == old(HeldAt(j));
        }
      }
    }

    method ReleaseAllHolds()
      requires Shape()
      modifies this`mouseHeld, this`touching, this`batDragging, keyHeld, input.button, input.gpio,
               input`pwrEvents, input`touchPressed
      ensures Shape() && Abs() == ReleaseAll(cfg, old(Abs()))
      ensures Distinct(cfg.board) && old(LinesMatch()) ==> LinesMatch()
    {
      hide CountPwr, HeldSet, Inv, Distinct, LevelOf, SameLine;
      ghost var start := Abs();
      var held := Keys();
      DropKeys(held);
      assert held * held == held && Keys() == {};
      HeldSplits(start);
      DropMouse();
      if touching {
        touching := false;
        input.touchPressed := false;
      }
      batDragging := false;
      assert Abs().queue == ReleaseAll(cfg, start).queue;
    }

    /** The power controls held are those held by a key alone and the one under the mouse. */
    lemma HeldSplits(s: State)
      requires -1 <= s.mouse < cfg.Nubs() && forall i :: i in s.keys ==> i < cfg.Nubs()
      ensures CountPwr(cfg, cfg.Nubs(), HeldSet(cfg, s))
           == CountPwr(cfg, cfg.Nubs(), s.keys - {s.mouse}) + (if s.mouse >= 0 && cfg.IsPwr(s.mouse) then 1 else 0)
    {
      CountSplits(cfg.Nubs(), s.keys, s.mouse, HeldSet(cfg, s));
    }

    lemma {:induction false} CountSplits(n: nat, keys: set<nat>, mouse: int, held: set<nat>)
      requires forall i: nat :: i < n && cfg.IsPwr(i) ==> (i in held <==> i in keys || mouse == i)
      ensures CountPwr(cfg, n, held)
           == CountPwr(cfg, n, keys - {mouse}) + (if 0 <= mouse < n && cfg.IsPwr(mouse) then 1 else 0)
    {
      if n > 0 {
        CountSplits(n - 1, keys, mouse, held);
      }
    }

    method CloseHelp()
      modifies this`helpOpen
      ensures !helpOpen
    {
      helpOpen := false;
    }

    method ClosePanel()
      modifies this`panelOpen, this`batDragging
      ensures !panelOpen && !batDragging
    {
      panelOpen, batDragging := false, false;
    }

    method OpenHelp()
      requires Shape()
      modifies this, keyHeld, input, input.button, input.gpio
      ensures Shape() && Abs() == Open(cfg, old(Abs()), Help)
      ensures Distinct(cfg.board) && old(LinesMatch()) ==> LinesMatch()
    {
      ghost var start := Abs();
      helpOpen := true;
      ClosePanel();
      assert HeldSet(cfg, Abs()) == HeldSet(cfg, start);
      ReleaseAllHolds();
    }

    method OpenPanel()
      requires Shape()
      modifies this, keyHeld, input, input.button, input.gpio
      ensures Shape() && Abs() == Open(cfg, old(Abs()), PanelOpen)
      ensures Distinct(cfg.board) && old(LinesMatch()) ==> LinesMatch()
    {
      ghost var start := Abs();
      panelOpen := true;
      CloseHelp();
      assert HeldSet(cfg, Abs()) == HeldSet(cfg, start);
      ReleaseAllHolds();
    }

    method SetTouch(mx: int, my: int)
      requires Shape()
      modifies input`touchX, input`touchY
      ensures (input.touchX, input.touchY) == TouchOf(cfg, mx, my)
    {
      var s := ScreenOf(cfg.board, cfg.scale);
      var fx, fy := TruncDiv(mx - s.x, cfg.scale), TruncDiv(my - s.y, cfg.scale);
      if fx < 0 {
        fx := 0;
      } else if fx >= cfg.board.width {
        fx := cfg.board.width - 1;
      }
      if fy < 0 {
        fy := 0;
      } else if fy >= cfg.board.height {
        fy := cfg.board.height - 1;
      }
      input.touchX, input.touchY := fx, fy;
    }

    method SetBatteryFromX(mx: int)
      requires Shape()
      modifies input`batteryPct
      ensures input.batteryPct == BatteryOf(cfg, mx)
    {
      var p := LayoutPanel(cfg.Window(), cfg.board.hasBattery, cfg.board.hasRotation);
      var span := p.batBar.w - 4;
      var pct := if span > 0 then TruncDiv((mx - (p.batBar.x + 2)) * 100, span) else 0;
      if pct < 0 {
        pct := 0;
      } else if pct > 100 {
        pct := 100;
      }
      input.batteryPct := pct;
    }

    /** A left click inside the open panel's window. */
    method ClickPanel(mx: int, my: int)
      requires Shape() && panelOpen
      modifies this`panelOpen, this`batDragging, input`batteryPct, input`charging, input`vbus, input`quadrant
      ensures Shape() && Abs() == PanelClick(cfg, old(Abs()), mx, my)
    {
      hide PanelCard, PanelOf, WindowOf, BatteryOf;
      if PanelCard(cfg.Window()).Contains(mx, my) {
        var p := LayoutPanel(cfg.Window(), cfg.board.hasBattery, cfg.board.hasRotation);
        if cfg.board.hasBattery && p.batBar.Contains(mx, my) {
          batDragging := true;
          SetBatteryFromX(mx);
        } else if cfg.board.hasBattery && p.chgBtn.Contains(mx, my) {
          input.charging := !input.charging;
        } else if cfg.board.hasBattery && p.usbBtn.Contains(mx, my) {
          input.vbus := !input.vbus;
        } else if cfg.board.hasRotation && p.rotBtn.Contains(mx, my) {
          input.quadrant := (input.quadrant + 1) % 4;
        }
      } else {
        ClosePanel();
      }
    }

    /** A left click on the bare device: the screen is touched, or the first nub hit is pressed. */
    method ClickDevice(mx: int, my: int, now: nat)
      requires Shape() && mouseHeld == -1
      modifies this, input, input.button, input.gpio
      ensures Shape() && Abs() == DeviceClick(cfg, old(Abs()), mx, my, now)
      ensures Distinct(cfg.board) && old(LinesMatch()) ==> LinesMatch()
    {
      hide NubAt, TouchOf, ScreenOf, Inv, Distinct, LevelOf, SameLine;
      if ScreenOf(cfg.board, cfg.scale).Contains(mx, my) {
        touching := true;
        input.touchPressed := true;
        SetTouch(mx, my);
      } else {
        var i := 0;
        while i < cfg.Nubs()
          invariant 0 <= i <= cfg.Nubs() && Shape() && Abs() == old(Abs())
          invariant NubHit(cfg, 0, mx, my) == NubHit(cfg, i, mx, my)
          invariant Distinct(cfg.board) && old(LinesMatch()) ==> LinesMatch()
        {
          if NubAt(cfg.board, cfg.scale, i).hit.Contains(mx, my) {
            PressAction(i, now);
            mouseHeld := i;
            break;
          }
          i := i + 1;
        }
      }
    }

    method MouseButtonDown(mx: int, my: int, now: nat)
      requires Valid() && !lmb
      modifies this, keyHeld, input, input.button, input.gpio
      ensures Valid() && Abs() == OnMouseDown(cfg, old(Abs()), mx, my, now)
      ensures Distinct(cfg.board) && old(LinesMatch()) ==> LinesMatch()
    {
      hide MoreNubOf, PanelClick, DeviceClick, ReleaseAll;
      MouseDownKeepsInv(cfg, Abs(), mx, my, now);
      lmb := true;
      var hasPanel := cfg.board.hasBattery || cfg.board.hasRotation;
      if hasPanel && MoreNubOf(cfg.board, cfg.scale).Contains(mx, my) {
        if panelOpen {
          ClosePanel();
        } else {
          OpenPanel();
        }
      } else if helpOpen {
        CloseHelp();
      } else if panelOpen {
        ClickPanel(mx, my);
      } else {
        ClickDevice(mx, my, now);
      }
    }

    method MouseButtonUp()
      requires Valid()
      modifies this, input, input.button, input.gpio
      ensures Valid() && Abs() == OnMouseUp(cfg, old(Abs()))
      ensures Distinct(cfg.board) && old(LinesMatch()) ==> LinesMatch()
    {
      hide Inv;
      StepKeepsInv(cfg, Abs(), Input(MouseUp, 0));
      lmb := false;
      if touching {
        touching := false;
        input.touchPressed := false;
      }
      batDragging := false;
      DropMouse();
      assert Abs() == OnMouseUp(cfg, old(Abs()));
    }

    /** A key goes down with no overlay open: every control it is the shortcut of is pressed. */
    method PressKeys(sym: int, now: nat)
      requires Shape()
      modifies keyHeld, input.button, input.gpio, this`pwrDownAt, this`pwrLongSent
      ensures Shape() && Abs() == Press(cfg, old(Abs()), Matching(cfg, sym), now).(keys := old(Keys()) + Matching(cfg, sym))
      ensures forall i :: 0 <= i < cfg.Nubs() ==>
                var key := cfg.board.buttons[i].key; keyHeld[i] == (old(keyHeld[i]) || (key != 0 && key == sym))
      ensures Distinct(cfg.board) && old(LinesMatch()) ==> LinesMatch()
    {
      hide Distinct, LevelOf, SameLine;
      var i := 0;
      while i < cfg.Nubs()
        invariant 0 <= i <= cfg.Nubs() && Shape()
        invariant forall k :: 0 <= k < MAX_LAYOUT_BUTTONS ==>
                    keyHeld[k] == (old(keyHeld[k]) || (k < i && cfg.Shortcut(k, sym)))
        invariant Distinct(cfg.board) && old(LinesMatch()) ==> LinesMatch()
        invariant if exists k :: 0 <= k < i && cfg.Shortcut(k, sym) && cfg.IsPwr(k)
                  then pwrDownAt == now && !pwrLongSent
                  else pwrDownAt == old(pwrDownAt) && pwrLongSent == old(pwrLongSent)
      {
        var b := cfg.board.buttons[i];
        if b.key != 0 && sym == b.key {
          keyHeld[i] := true;
          PressAction(i, now);
        }
        i := i + 1;
      }
      assert Keys() == old(Keys()) + Matching(cfg, sym);
    }

    /** False asks the window to close. */
    method OnKey(sym: int, again: bool, now: nat) returns (alive: bool)
      requires Valid()
      modifies this, keyHeld, input, input.button, input.gpio
      ensures Valid() && Abs() == OnKeyDown(cfg, old(Abs()), sym, again, now)
      ensures alive == !(sym == KEY_ESCAPE && old(Abs()).overlay == Closed)
      ensures Distinct(cfg.board) && old(LinesMatch()) ==> LinesMatch()
    {
      KeyDownKeepsInv(cfg, Abs(), sym, again, now);
      alive := true;
      if sym == KEY_ESCAPE {
        if helpOpen {
          CloseHelp();
        } else if panelOpen {
          ClosePanel();
        } else {
          alive := false;
        }
      } else if !again && sym == KEY_BACKQUOTE {
        if cfg.board.hasBattery || cfg.board.hasRotation {
          if panelOpen {
            ClosePanel();
          } else {
            OpenPanel();
          }
        }
      } else if !again && (sym == KEY_SLASH || sym == KEY_H) {
        if helpOpen {
          CloseHelp();
        } else {
          OpenHelp();
        }
      } else if !again && !helpOpen && !panelOpen {
        PressKeys(sym, now);
      }
    }

    method OnKeyReleased(sym: int)
      requires Valid()
      modifies keyHeld, input, input.button, input.gpio
      ensures Valid() && Abs() == OnKeyUp(cfg, old(Abs()), sym)
      ensures Distinct(cfg.board) && old(LinesMatch()) ==> LinesMatch()
    {
      StepKeepsInv(cfg, Abs(), Input(KeyUp(sym), 0));
      ghost var start := Abs();
      var matching := Matching(cfg, sym);
      DropKeys(matching);
      assert start.keys - start.keys * matching == start.keys - matching;
    }

    method EndFrame(now: nat)
      requires Valid()
      modifies this`pwrLongSent, input`pwrEvents
      ensures Valid() && Abs() == OnFrameEnd(cfg, old(Abs()), now)
      ensures old(LinesMatch()) ==> LinesMatch()
    {
      StepKeepsInv(cfg, Abs(), Input(FrameEnd, now));
      var held := PwrIsHeld();
      if held && !pwrLongSent && (now - pwrDownAt) % TICKS_MOD >= PWR_LONG_MS {
        input.pwrEvents := input.pwrEvents + [2];
        pwrLongSent := true;
      }
    }

    /** One event of the loop. */
    method Handle(i: Input) returns (alive: bool)
      requires Valid() && Physical(Abs(), i)
      modifies this, keyHeld, input, input.button, input.gpio
      ensures Valid() && Abs() == Step(cfg, old(Abs()), i)
      ensures alive == !AsksToClose(old(Abs()), i)
      ensures Distinct(cfg.board) && old(LinesMatch()) ==> LinesMatch()
    {
      alive := true;
      match i.event {
        case MouseDown(x, y) => MouseButtonDown(x, y, i.now);
        case MouseUp => MouseButtonUp();
        case MouseMotion(x, y) =>
          StepKeepsInv(cfg, Abs(), i);
          if touching {
            SetTouch(x, y);
          } else if batDragging {
            SetBatteryFromX(x);
          }
        case KeyDown(sym, again) => alive := OnKey(sym, again, i.now);
        case KeyUp(sym) => OnKeyReleased(sym);
        case FrameEnd => EndFrame(i.now);
        case Quit => alive := false;
        case Other =>
      }
    }

    /** The event loop and the long-press step that follows it, over one batch of queued events: all of them, or,
        when one asks to close, those up to it and no long-press step. */
    method Tick(events: seq<Input>, now: nat) returns (alive: bool, ghost handled: seq<Input>)
      requires Valid() && Alternating(cfg, Abs(), events)
      modifies this, keyHeld, input, input.button, input.gpio
      ensures Valid() && Abs() == Run(cfg, old(Abs()), handled)
      ensures var close := FirstClose(cfg, old(Abs()), events);
              && (alive <==> close == -1)
              && handled == if alive then events + [Input(FrameEnd, now)] else events[..close + 1]
      ensures FollowsRules(cfg, old(Abs()), handled)
      ensures Distinct(cfg.board) && old(LinesMatch()) ==> LinesMatch() && InputsSay(Run(cfg, old(Abs()), handled))
    {
      hide FollowsRules, InputsSay, LinesMatch;
      handled := [];
      var k := 0;
      while k < |events|
        invariant 0 <= k <= |events| && handled == events[..k]
        invariant Valid() && Alternating(cfg, Abs(), events[k..]) && Abs() == Run(cfg, old(Abs()), handled)
        invariant Distinct(cfg.board) && old(LinesMatch()) ==> LinesMatch()
        invariant var close, later := FirstClose(cfg, old(Abs()), events), FirstClose(cfg, Abs(), events[k..]);
                  close == if later == -1 then -1 else k + later
      {
        RunSnoc(cfg, old(Abs()), handled, events[k]);
        assert events[k..][0] == events[k] && events[k..][1..] == events[k + 1..];
        alive := Handle(events[k]);
        handled := handled + [events[k]];
        if !alive {
          Settled(old(Abs()), handled);
          return;
        }
        k := k + 1;
      }
      RunSnoc(cfg, old(Abs()), handled, Input(FrameEnd, now));
      alive := Handle(Input(FrameEnd, now));
      handled := handled + [Input(FrameEnd, now)];
      Settled(old(Abs()), handled);
    }

    lemma Settled(start: State, handled: seq<Input>)
      requires Valid() && Abs() == Run(cfg, start, handled)
      ensures FollowsRules(cfg, start, handled)
      ensures LinesMatch() ==> InputsSay(Run(cfg, start, handled))
    {
      hide FollowsRules, InputsSay, LinesMatch;
      RunsFollowRules(cfg, start, handled);
      if LinesMatch() {
        LinesSay();
      }
    }
  }
}
