/** The guest input agent: a byte-at-a-time line reader, a tokenizer, and the injected input state.

    `HandleLine` is what one line does and what it answers; the class is the agent's task, which fills a
    128-byte buffer. How many replies a line draws, and that every command the host prints is understood,
    is proved about the functions.
 */
module GuestAgent {
  import opened Pixels
  import opened CLang
  import opened Decimal

  const LINE_SIZE := 128
  const MAX_PIN := 63
  const BANNER := "esprite-agent v1"

  /** Injected state. A level of -1 was never injected. */
  datatype Guest = Guest(held: bool, x: int, y: int, touchEvents: nat, level: seq<int>, gpioEvents: seq<nat>) {
    function Touch(tx: int, ty: int): Guest { this.(held := true, x := tx, y := ty, touchEvents := touchEvents + 1) }

    function Level(pin: nat): int { if pin < |level| then level[pin] else -1 }

    function SetLevel(pin: nat, l: int): Guest { if pin < |level| then this.(level := level[pin := l]) else this }

    function Count(pin: nat): Guest {
      if pin < |gpioEvents| then this.(gpioEvents := gpioEvents[pin := gpioEvents[pin] + 1]) else this
    }
  }

  function Err(message: string): string { "err " + message }

  const FRESH := Guest(false, 0, 0, 0, seq(MAX_PIN + 1, _ => -1), seq(MAX_PIN + 1, _ => 0))

  // ---- Tokens ----

  function NextSpace(s: string, i: nat): (e: nat)
    requires i <= |s|
    ensures i <= e <= |s| && (forall k :: i <= k < e ==> s[k] != ' ') && (e < |s| ==> s[e] == ' ')
    decreases |s| - i
  {
    if i < |s| && s[i] != ' ' then NextSpace(s, i + 1) else i
  }

  /** What successive `strtok_r(…, " ")` calls return: the maximal runs of non-spaces. */
  function Words(s: string): seq<string>
    decreases |s|
  {
    if s == "" then []
    else if s[0] == ' ' then Words(s[1..])
    else var e := NextSpace(s, 0); [s[..e]] + Words(s[e..])
  }

  /** The n-th token as a strict integer in range; a missing token fails. */
  function IntArg(words: seq<string>, n: nat, min: int, max: int): (r: Option<int>)
    ensures r.Some? ==> min <= r.value <= max
  {
    if n >= |words| || words[n] == "" then None
    else
      var (v, end) := Strtol(words[n]);
      if end != |words[n]| || v < min || v > max then None else Some(v)
  }

  // ---- One line ----

  /** `asleep` is the state firmware can observe while the agent delays inside a command. */
  datatype Handled = Handled(guest: Guest, asleep: Option<Guest>, reply: string)

  function HandleLine(g: Guest, line: string): Handled {
    var w := Words(CString(line));
    if w == [] then Handled(g, None, Err("empty command"))
    else if w[0] == "ping" then Handled(g, None, "ok esprite-agent v1")
    else if w[0] == "gpio" then
      var pin, level := IntArg(w, 1, 0, MAX_PIN), IntArg(w, 2, 0, 1);
      if pin.None? || level.None? then Handled(g, None, Err("gpio needs <pin 0-63> <0|1>"))
      else
        var counted := if level.value == 0 && g.Level(pin.value) != 0 then g.Count(pin.value) else g;
        Handled(counted.SetLevel(pin.value, level.value), None, "ok")
    else if w[0] == "pulse" then
      var pin, level, ms := IntArg(w, 1, 0, MAX_PIN), IntArg(w, 2, 0, 1), IntArg(w, 3, 1, 10000);
      if pin.None? || level.None? || ms.None? then
        Handled(g, None, Err("pulse needs <pin 0-63> <0|1> <ms 1-10000>"))
      else
        var pressed := g.SetLevel(pin.value, level.value);
        Handled(pressed.SetLevel(pin.value, 1 - level.value).Count(pin.value), Some(pressed), "ok")
    else if w[0] == "touch" then
      var x, y := IntArg(w, 1, 0, 4095), IntArg(w, 2, 0, 4095);
      if x.None? || y.None? then Handled(g, None, Err("touch needs <x> <y>"))
      else Handled(g.Touch(x.value, y.value), None, "ok")
    else if w[0] == "release" then Handled(g.(held := false), None, "ok")
    else if w[0] == "tap" then
      var x, y, ms := IntArg(w, 1, 0, 4095), IntArg(w, 2, 0, 4095), IntArg(w, 3, 1, 10000);
      if x.None? || y.None? || ms.None? then Handled(g, None, Err("tap needs <x> <y> <ms 1-10000>"))
      else
        var pressed := g.Touch(x.value, y.value);
        Handled(pressed.(held := false), Some(pressed), "ok")
    else Handled(g, None, Err("unknown command"))
  }

  /** The agent's reader: the partial line and the replies written so far. */
  datatype Reader = Reader(guest: Guest, line: string, out: seq<string>)

  function OnByte(r: Reader, c: char): Reader {
    if c == '\n' || c == '\r' then
      if r.line == "" then r
      else var h := HandleLine(r.guest, r.line); Reader(h.guest, "", r.out + [h.reply])
    else if |r.line| < LINE_SIZE - 1 then r.(line := r.line + [c])
    else r.(line := "", out := r.out + [Err("line too long")])
  }

  function Feed(r: Reader, bytes: string): Reader
    decreases |bytes|
  {
    if bytes == "" then r else OnByte(Feed(r, bytes[..|bytes| - 1]), bytes[|bytes| - 1])
  }

  lemma {:induction false} FeedAppend(r: Reader, a: string, b: string)
    ensures Feed(r, a + b) == Feed(Feed(r, a), b)
    decreases |b|
  {
    if b == "" {
      assert a + b == a;
    } else {
      FeedAppend(r, a, b[..|b| - 1]);
      assert (a + b)[..|a + b| - 1] == a + b[..|b| - 1];
    }
  }

  /** Replies are only ever added. */
  lemma {:induction false} FeedGrows(r: Reader, bytes: string)
    ensures r.out <= Feed(r, bytes).out
    decreases |bytes|
  {
    hide HandleLine;
    if bytes != "" {
      FeedGrows(r, bytes[..|bytes| - 1]);
    }
  }

  const REPLIES := [
    "ok", "ok esprite-agent v1", Err("empty command"), Err("gpio needs <pin 0-63> <0|1>"),
    Err("pulse needs <pin 0-63> <0|1> <ms 1-10000>"), Err("touch needs <x> <y>"),
    Err("tap needs <x> <y> <ms 1-10000>"), Err("unknown command"), Err("line too long")]

  /** How the host sorts a line it receives. */
  predicate IsBanner(line: string) { StartsWith(line, "esprite-agent") && !StartsWith(line, "ok") }

  predicate StartsWith(line: string, prefix: string) { |prefix| <= |line| && line[..|prefix|] == prefix }

  /** A reply is a single line that the host neither mistakes for the banner nor fails to recognise. */
  predicate ProperReply(line: string) {
    NoBreak(line) && !IsBanner(line) && (StartsWith(line, "ok") || StartsWith(line, "err "))
  }

  lemma ErrIsProper(message: string)
    requires NoBreak(message)
    ensures ProperReply(Err(message))
  {
    var line := Err(message);
    assert line[..4] == "err ";
    assert line[1] == 'r' && "esprite-agent"[1] == 's';
  }

  lemma OkIsProper(rest: string)
    requires NoBreak(rest)
    ensures ProperReply("ok" + rest)
  {
    assert ("ok" + rest)[..2] == "ok";
  }

  lemma KnownReply(k: nat)
    requires k < |REPLIES|
    ensures ProperReply(REPLIES[k])
  {
    hide ProperReply;
    if
    case k < 2 => OkReplies();
    case k == 2 => ErrIsProper("empty command");
    case k == 3 => GpioUsage();
    case k == 4 => PulseUsage();
    case k == 5 => ErrIsProper("touch needs <x> <y>");
    case k == 6 => TapUsage();
    case k == 7 => ErrIsProper("unknown command");
    case k == 8 => ErrIsProper("line too long");
  }

  lemma OkReplies()
    ensures ProperReply("ok") && ProperReply("ok esprite-agent v1")
  {
    OkIsProper("");
    OkIsProper(" esprite-agent v1");
    assert "ok" + "" == "ok" && "ok" + " esprite-agent v1" == "ok esprite-agent v1";
  }

  lemma GpioUsage()
    ensures ProperReply(Err("gpio needs <pin 0-63> <0|1>"))
  {
    ErrIsProper("gpio needs <pin 0-63> <0|1>");
  }

  lemma PulseUsage()
    ensures ProperReply(Err("pulse needs <pin 0-63> <0|1> <ms 1-10000>"))
  {
    ErrIsProper("pulse needs <pin 0-63> <0|1> <ms 1-10000>");
  }

  lemma TapUsage()
    ensures ProperReply(Err("tap needs <x> <y> <ms 1-10000>"))
  {
    ErrIsProper("tap needs <x> <y> <ms 1-10000>");
  }

  lemma HandledReply(g: Guest, line: string)
    ensures exists k :: 0 <= k < 8 && HandleLine(g, line).reply == REPLIES[k]
  {
    hide Words, IntArg, CString;
    var r := HandleLine(g, line).reply;
    assert r == REPLIES[0] || r == REPLIES[1] || r == REPLIES[2] || r == REPLIES[3]
        || r == REPLIES[4] || r == REPLIES[5] || r == REPLIES[6] || r == REPLIES[7];
  }

  /** Everything the agent ever writes after its banner is a proper reply. */
  lemma {:induction false} AllProper(r: Reader, bytes: string)
    requires forall i :: 0 <= i < |r.out| ==> ProperReply(r.out[i])
    ensures forall i :: 0 <= i < |Feed(r, bytes).out| ==> ProperReply(Feed(r, bytes).out[i])
    decreases |bytes|
  {
    hide HandleLine, ProperReply;
    if bytes != "" {
      var before := Feed(r, bytes[..|bytes| - 1]);
      AllProper(r, bytes[..|bytes| - 1]);
      HandledReply(before.guest, before.line);
      var k :| 0 <= k < 8 && HandleLine(before.guest, before.line).reply == REPLIES[k];
      KnownReply(k);
      KnownReply(8);
    }
  }

  /** Injection never loses or adds a pin. */
  ghost predicate Sized(g: Guest) { |g.level| == |g.gpioEvents| == MAX_PIN + 1 }

  lemma {:induction false} FeedKeepsSize(r: Reader, bytes: string)
    requires Sized(r.guest)
    ensures Sized(Feed(r, bytes).guest)
    decreases |bytes|
  {
    hide Words, IntArg, CString;
    if bytes != "" {
      FeedKeepsSize(r, bytes[..|bytes| - 1]);
    }
  }

  // ---- How many replies a line draws ----

  predicate NoBreak(s: string) { '\n' !in s && '\r' !in s }

  /** While a line comes in, every 128th byte is dropped with an error and restarts the buffer. */
  lemma {:induction false} LineFills(g: Guest, out: seq<string>, s: string)
    requires NoBreak(s)
    ensures var r := Feed(Reader(g, "", out), s);
            && r.guest == g && |r.out| == |out| + |s| / LINE_SIZE
            && r.line == s[|s| - |s| % LINE_SIZE..]
            && out <= r.out && forall i :: |out| <= i < |r.out| ==> r.out[i] == Err("line too long")
    decreases |s|
  {
    hide HandleLine;
    if s != "" {
      var front, c := s[..|s| - 1], s[|s| - 1];
      LineFills(g, out, front);
      assert s == front + [c];
      var k := |front| % LINE_SIZE;
      if k < LINE_SIZE - 1 {
        assert |s| / LINE_SIZE == |front| / LINE_SIZE && |s| % LINE_SIZE == k + 1;
        assert s[|s| - (k + 1)..] == front[|front| - k..] + [c];
      } else {
        assert |s| / LINE_SIZE == |front| / LINE_SIZE + 1 && |s| % LINE_SIZE == 0;
      }
    }
  }

  /** A whole line from a clean buffer draws one reply per started block of 128 bytes and leaves the
      buffer clean. */
  lemma RepliesPerLine(g: Guest, out: seq<string>, s: string)
    requires NoBreak(s)
    ensures var r := Feed(Reader(g, "", out), s + "\n");
            && r.line == "" && |r.out| == |out| + (|s| + LINE_SIZE - 1) / LINE_SIZE
            && out <= r.out
  {
    hide HandleLine;
    LineFills(g, out, s);
    FeedAppend(Reader(g, "", out), s, "\n");
    OneByte(Feed(Reader(g, "", out), s), '\n');
    Ceiling(|s|);
  }

  lemma Ceiling(n: nat)
    ensures (n + LINE_SIZE - 1) / LINE_SIZE == n / LINE_SIZE + (if n % LINE_SIZE == 0 then 0 else 1)
  {
  }

  lemma OneByte(r: Reader, c: char)
    ensures Feed(r, [c]) == OnByte(r, c)
  {
    assert [c][..0] == "";
  }

  /** So a line gets exactly one reply exactly when it has 1 to 128 bytes, and it is acted on exactly when
      it has fewer than 128. */
  lemma ExactlyOneReply(g: Guest, out: seq<string>, s: string)
    requires NoBreak(s)
    ensures |Feed(Reader(g, "", out), s + "\n").out| == |out| + 1 <==> 1 <= |s| <= LINE_SIZE
    ensures 1 <= |s| < LINE_SIZE ==>
              Feed(Reader(g, "", out), s + "\n") == Reader(HandleLine(g, s).guest, "", out + [HandleLine(g, s).reply])
    ensures |s| == LINE_SIZE ==> Feed(Reader(g, "", out), s + "\n") == Reader(g, "", out + [Err("line too long")])
  {
    hide HandleLine;
    RepliesPerLine(g, out, s);
    LineFills(g, out, s);
    FeedAppend(Reader(g, "", out), s, "\n");
    OneByte(Feed(Reader(g, "", out), s), '\n');
    if 1 <= |s| < LINE_SIZE {
      assert s[0..] == s;
    }
  }

  /** The buffer never holds a break or a full line. */
  predicate Short(r: Reader) { NoBreak(r.line) && |r.line| < LINE_SIZE }

  lemma {:induction false} FeedKeepsShort(r: Reader, bytes: string)
    requires Short(r)
    ensures Short(Feed(r, bytes))
    decreases |bytes|
  {
    hide HandleLine;
    if bytes != "" {
      FeedKeepsShort(r, bytes[..|bytes| - 1]);
    }
  }

  /** The replies a line and its newline draw, whatever the buffer already holds. */
  function Drawn(r: Reader, line: string): seq<string>
  {
    FeedGrows(r, line + "\n");
    Feed(r, line + "\n").out[|r.out|..]
  }

  /** A line behind q bytes left in the buffer is taken for the one line of both: one reply per started block of
      128 bytes, and below 128 the reply to both together. */
  lemma DrawnReplies(r: Reader, line: string)
    requires Short(r) && NoBreak(line) && 1 <= |line| < LINE_SIZE
    ensures Feed(r, line + "\n").line == "" && Feed(r, line + "\n").out == r.out + Drawn(r, line)
    ensures |Drawn(r, line)| == if |r.line| + |line| <= LINE_SIZE then 1 else 2
    ensures |r.line| + |line| < LINE_SIZE ==>
              var h := HandleLine(r.guest, r.line + line);
              Drawn(r, line) == [h.reply] && Feed(r, line + "\n").guest == h.guest
    ensures |r.line| + |line| == LINE_SIZE ==> Drawn(r, line) == [Err("line too long")] && Feed(r, line + "\n").guest == r.guest
  {
    hide HandleLine, Feed;
    var clean, whole := Reader(r.guest, "", r.out), r.line + line;
    FeedGrows(r, line + "\n");
    LineFills(r.guest, r.out, r.line);
    assert r.line[0..] == r.line;
    assert Feed(clean, r.line) == r;
    FeedAppend(clean, r.line, line + "\n");
    assert r.line + (line + "\n") == whole + "\n";
    RepliesPerLine(r.guest, r.out, whole);
    ExactlyOneReply(r.guest, r.out, whole);
  }

  // ---- Printing and parsing a command ----

  datatype Command =
    | Ping
    | Gpio(pin: nat, level: nat)
    | Pulse(pin: nat, level: nat, ms: nat)
    | Touch(x: nat, y: nat)
    | Release
    | Tap(x: nat, y: nat, ms: nat)
  {
    /** The line the host sends. */
    function Line(): string {
      match this
      case Ping => "ping"
      case Gpio(pin, level) => "gpio " + Print(pin) + " " + Print(level)
      case Pulse(pin, level, ms) => "pulse " + Print(pin) + " " + Print(level) + " " + Print(ms)
      case Touch(x, y) => "touch " + Print(x) + " " + Print(y)
      case Release => "release"
      case Tap(x, y, ms) => "tap " + Print(x) + " " + Print(y) + " " + Print(ms)
    }

    /** The host's bounds checks. */
    predicate InRange() {
      match this
      case Ping => true
      case Gpio(pin, level) => pin <= MAX_PIN && level <= 1
      case Pulse(pin, level, ms) => pin <= MAX_PIN && level <= 1 && 1 <= ms <= 10000
      case Touch(x, y) => x <= 4095 && y <= 4095
      case Release => true
      case Tap(x, y, ms) => x <= 4095 && y <= 4095 && 1 <= ms <= 10000
    }

    /** What the command is for: the state it leaves and the one it shows meanwhile. A press counts once,
        a level change only when it newly pulls the pin low. */
    function Meaning(g: Guest): Handled
      requires InRange() && Sized(g)
    {
      match this
      case Ping => Handled(g, None, "ok esprite-agent v1")
      case Gpio(pin, level) =>
        Handled(g.(level := g.level[pin := level],
                   gpioEvents := g.gpioEvents[pin := g.gpioEvents[pin] + (if level == 0 && g.level[pin] != 0 then 1 else 0)]),
                None, "ok")
      case Pulse(pin, level, ms) =>
        Handled(g.(level := g.level[pin := 1 - level], gpioEvents := g.gpioEvents[pin := g.gpioEvents[pin] + 1]),
                Some(g.(level := g.level[pin := level])), "ok")
      case Touch(x, y) => Handled(g.(held := true, x := x, y := y, touchEvents := g.touchEvents + 1), None, "ok")
      case Release => Handled(g.(held := false), None, "ok")
      case Tap(x, y, ms) =>
        Handled(g.(held := false, x := x, y := y, touchEvents := g.touchEvents + 1),
                Some(g.(held := true, x := x, y := y, touchEvents := g.touchEvents + 1)), "ok")
    }
  }

  /** The lines as they are sent. */
  lemma CommandLines()
    ensures Gpio(12, 1).Line() == "gpio 12 1" && Pulse(12, 0, 250).Line() == "pulse 12 0 250"
    ensures Touch(34, 5).Line() == "touch 34 5" && Tap(34, 5, 120).Line() == "tap 34 5 120"
  {
    assert Print(0) == "0" && Print(1) == "1" && Print(5) == "5";
    assert Print(12) == "12" && Print(34) == "34";
    assert Print(120) == "120" && Print(250) == "250";
    hide Print;
    GpioLine();
    PulseLine();
    TouchLine();
    TapLine();
  }

  lemma GpioLine()
    ensures "gpio " + "12" + " " + "1" == "gpio 12 1"
  {
    assert "gpio " + "12" + " " == "gpio 12 ";
  }

  lemma PulseLine()
    ensures "pulse " + "12" + " " + "0" + " " + "250" == "pulse 12 0 250"
  {
    assert "pulse " + "12" + " " + "0" + " " == "pulse 12 0 ";
  }

  lemma TouchLine()
    ensures "touch " + "34" + " " + "5" == "touch 34 5"
  {
    assert "touch " + "34" + " " == "touch 34 ";
  }

  lemma TapLine()
    ensures "tap " + "34" + " " + "5" + " " + "120" == "tap 34 5 120"
  {
    assert "tap " + "34" + " " + "5" + " " == "tap 34 5 ";
  }

  /** The line of a pulse: its pin stands at the level asked for while the agent sleeps and at the other one behind it,
      and one event is counted; a gpio counts one exactly when it newly pulls the pin low. No other pin changes. */
  lemma PinsMove(g: Guest, pin: nat, level: nat, ms: nat)
    requires Sized(g) && pin <= MAX_PIN && level <= 1 && 1 <= ms <= 10000
    ensures Pulsed(g, HandleLine(g, Pulse(pin, level, ms).Line()), pin, level)
    ensures Driven(g, HandleLine(g, Gpio(pin, level).Line()), pin, level)
  {
    hide HandleLine, Command.Line;
    CommandUnderstood(g, Pulse(pin, level, ms));
    CommandUnderstood(g, Gpio(pin, level));
  }

  /** The line of a tap: held at the point while the agent sleeps, released there behind it, and one press counted. */
  lemma TapsPress(g: Guest, x: nat, y: nat, ms: nat)
    requires Sized(g) && x <= 4095 && y <= 4095 && 1 <= ms <= 10000
    ensures var h := HandleLine(g, Tap(x, y, ms).Line());
            && h.asleep.Some? && h.asleep.value.held && !h.guest.held && h.guest == h.asleep.value.(held := false)
            && h.guest.x == x && h.guest.y == y && h.guest.touchEvents == g.touchEvents + 1
            && h.guest.level == g.level && h.guest.gpioEvents == g.gpioEvents
  {
    hide HandleLine, Command.Line;
    CommandUnderstood(g, Tap(x, y, ms));
  }

  ghost predicate Pulsed(g: Guest, h: Handled, pin: nat, level: nat)
    requires Sized(g) && pin <= MAX_PIN
  {
    && OthersStay(g, h.guest, pin) && h.asleep.Some? && OthersStay(g, h.asleep.value, pin) && h.reply == "ok"
    && h.asleep.value.level[pin] == level && h.guest.level[pin] + level == 1
    && h.asleep.value.gpioEvents[pin] == g.gpioEvents[pin] && h.guest.gpioEvents[pin] == g.gpioEvents[pin] + 1
  }

  ghost predicate Driven(g: Guest, h: Handled, pin: nat, level: nat)
    requires Sized(g) && pin <= MAX_PIN
  {
    && OthersStay(g, h.guest, pin) && h.asleep.None? && h.reply == "ok" && h.guest.level[pin] == level
    && h.guest.gpioEvents[pin] == g.gpioEvents[pin] + (if g.level[pin] != 0 && level == 0 then 1 else 0)
  }

  ghost predicate OthersStay(g: Guest, h: Guest, pin: nat)
    requires Sized(g)
  {
    && Sized(h) && h.held == g.held && h.x == g.x && h.y == g.y && h.touchEvents == g.touchEvents
    && forall k :: 0 <= k <= MAX_PIN && k != pin ==> h.level[k] == g.level[k] && h.gpioEvents[k] == g.gpioEvents[k]
  }

  /** The host's command that an accepted line amounts to. */
  ghost predicate Amounts(g: Guest, line: string, c: Command)
    requires Sized(g)
  {
    c.InRange() && HandleLine(g, line) == c.Meaning(g)
  }

  /** Whatever comes in, a line either amounts to one of those commands, within its bounds, or changes nothing and is
      answered with an error. */
  lemma CommandOrError(g: Guest, line: string)
    requires Sized(g)
    ensures var h := HandleLine(g, line);
            || (exists c :: Amounts(g, line, c))
            || (h.guest == g && h.asleep.None? && StartsWith(h.reply, "err "))
  {
    hide Words, CString, IntArg;
    var w := Words(CString(line));
    if w != [] {
      if w[0] == "ping" {
        assert Amounts(g, line, Ping);
      } else if w[0] == "release" {
        assert Amounts(g, line, Release);
      } else if w[0] == "gpio" {
        GpioOrError(g, line, w);
      } else if w[0] == "pulse" {
        PulseOrError(g, line, w);
      } else if w[0] == "touch" {
        var x, y := IntArg(w, 1, 0, 4095), IntArg(w, 2, 0, 4095);
        if x.Some? && y.Some? {
          assert Amounts(g, line, Touch(x.value, y.value));
        }
      } else if w[0] == "tap" {
        var x, y, ms := IntArg(w, 1, 0, 4095), IntArg(w, 2, 0, 4095), IntArg(w, 3, 1, 10000);
        if x.Some? && y.Some? && ms.Some? {
          assert Amounts(g, line, Tap(x.value, y.value, ms.value));
        }
      }
    }
    ErrStarts("empty command");
    ErrStarts("unknown command");
    ErrStarts("touch needs <x> <y>");
    ErrStarts("tap needs <x> <y> <ms 1-10000>");
  }

  lemma ErrStarts(message: string)
    ensures StartsWith(Err(message), "err ")
  {
  }

  lemma GpioOrError(g: Guest, line: string, w: seq<string>)
    requires Sized(g) && w == Words(CString(line)) && w != [] && w[0] == "gpio"
    ensures var h := HandleLine(g, line);
            (exists c :: Amounts(g, line, c)) || (h.guest == g && h.asleep.None? && StartsWith(h.reply, "err "))
  {
    hide Words, CString, IntArg;
    ErrStarts("gpio needs <pin 0-63> <0|1>");
    var pin, level := IntArg(w, 1, 0, MAX_PIN), IntArg(w, 2, 0, 1);
    if pin.Some? && level.Some? {
      assert Amounts(g, line, Gpio(pin.value, level.value));
    }
  }

  lemma PulseOrError(g: Guest, line: string, w: seq<string>)
    requires Sized(g) && w == Words(CString(line)) && w != [] && w[0] == "pulse"
    ensures var h := HandleLine(g, line);
            (exists c :: Amounts(g, line, c)) || (h.guest == g && h.asleep.None? && StartsWith(h.reply, "err "))
  {
    hide Words, CString, IntArg;
    ErrStarts("pulse needs <pin 0-63> <0|1> <ms 1-10000>");
    var pin, level, ms := IntArg(w, 1, 0, MAX_PIN), IntArg(w, 2, 0, 1), IntArg(w, 3, 1, 10000);
    if pin.Some? && level.Some? && ms.Some? {
      assert Amounts(g, line, Pulse(pin.value, level.value, ms.value));
    }
  }

  predicate Word(s: string) { s != "" && ' ' !in s }

  lemma WordsCons(a: string, rest: string)
    requires Word(a)
    ensures Words(a + " " + rest) == [a] + Words(rest)
    ensures Words(a) == [a]
  {
    var s := a + " " + rest;
    assert s[0] == a[0] && a[0] in a;
    SpaceAfter(a, " " + rest, 0);
    assert a + (" " + rest) == s;
    assert s[..|a|] == a && s[|a|..] == " " + rest;
    assert (" " + rest)[1..] == rest;
    SpaceAfter(a, "", 0);
    assert a + "" == a && a[|a|..] == "";
  }

  lemma SpaceAfter(a: string, rest: string, i: nat)
    requires ' ' !in a && i <= |a| && (rest == "" || rest[0] == ' ')
    ensures NextSpace(a + rest, i) == |a|
    decreases |a| - i
  {
    if i < |a| {
      assert (a + rest)[i] == a[i] && a[i] in a;
      SpaceAfter(a, rest, i + 1);
    }
  }

  predicate CPrintable(s: string) { NUL !in s && NoBreak(s) }

  lemma PrintIsWord(n: nat)
    ensures Word(Print(n)) && CPrintable(Print(n))
  {
    assert forall i :: 0 <= i < |Print(n)| ==> IsDigit(Print(n)[i]);
  }

  lemma ArgReads(words: seq<string>, n: nat, v: nat, min: int, max: int)
    requires n < |words| && words[n] == Print(v) && min <= v <= max <= LONG_MAX
    ensures IntArg(words, n, min, max) == Some(v)
  {
    PrintReads(v);
  }

  lemma NamePrintable(name: string, k: nat)
    requires k < 6 && name == ["ping", "gpio", "pulse", "touch", "release", "tap"][k]
    ensures Word(name) && CPrintable(name) && |name| <= 7
  {
    assert name == "ping" || name == "gpio" || name == "pulse" || name == "touch" || name == "release" || name == "tap";
  }

  /** The words of a printed command line with up to three arguments. */
  function Spaced(name: string, args: seq<nat>): string {
    if args == [] then name else Spaced(name, args[..|args| - 1]) + " " + Print(args[|args| - 1])
  }

  lemma {:induction false} SpacedWords(name: string, args: seq<nat>, rest: string)
    requires Word(name)
    ensures Words(Spaced(name, args) + " " + rest) == [name] + Printed(args) + Words(rest)
    decreases |args|
  {
    hide Words;
    if args == [] {
      WordsCons(name, rest);
      assert [name] + Printed(args) == [name];
    } else {
      var front, last := args[..|args| - 1], args[|args| - 1];
      SpacedWords(name, front, Print(last) + " " + rest);
      PrintIsWord(last);
      WordsCons(Print(last), rest);
      assert Spaced(name, args) + " " + rest == Spaced(name, front) + " " + (Print(last) + " " + rest);
      assert Printed(args) == Printed(front) + [Print(last)];
    }
  }

  function Printed(args: seq<nat>): seq<string> { seq(|args|, i requires 0 <= i < |args| => Print(args[i])) }

  lemma EmptyWords()
    ensures Words("") == [] && CString("") == ""
  {
  }

  lemma SpacedReads(name: string, args: seq<nat>)
    requires Word(name) && CPrintable(name)
    ensures Words(CString(Spaced(name, args))) == [name] + Printed(args) && CPrintable(Spaced(name, args))
  {
    EmptyWords();
    hide Words, CString;
    SpacedPrintable(name, args);
    CStringWhole(Spaced(name, args));
    if args == [] {
      WordsCons(name, "");
      assert [name] + Printed(args) == [name];
    } else {
      var front, last := args[..|args| - 1], args[|args| - 1];
      SpacedWords(name, front, Print(last));
      PrintIsWord(last);
      WordsCons(Print(last), "");
      assert Printed(args) == Printed(front) + [Print(last)];
    }
  }

  lemma {:induction false} SpacedPrintable(name: string, args: seq<nat>)
    requires CPrintable(name)
    ensures CPrintable(Spaced(name, args))
    decreases |args|
  {
    if args != [] {
      SpacedPrintable(name, args[..|args| - 1]);
      PrintIsWord(args[|args| - 1]);
    }
  }

  lemma {:induction false} SpacedShort(name: string, args: seq<nat>)
    requires forall i :: 0 <= i < |args| ==> args[i] < 100000
    ensures |Spaced(name, args)| <= |name| + 6 * |args|
    decreases |args|
  {
    if args != [] {
      SpacedShort(name, args[..|args| - 1]);
      assert Power10(5) == 10 * Power10(4) && Power10(4) == 10 * Power10(3) && Power10(3) == 10 * Power10(2);
      assert Power10(2) == 10 * Power10(1) && Power10(1) == 10 * Power10(0);
      PrintLength(args[|args| - 1], 5, 100000);
    }
  }

  function NameOf(c: Command): string {
    match c
    case Ping => "ping" case Gpio(_, _) => "gpio" case Pulse(_, _, _) => "pulse"
    case Touch(_, _) => "touch" case Release => "release" case Tap(_, _, _) => "tap"
  }

  function ArgsOf(c: Command): seq<nat> {
    match c
    case Ping => [] case Gpio(pin, level) => [pin, level] case Pulse(pin, level, ms) => [pin, level, ms]
    case Touch(x, y) => [x, y] case Release => [] case Tap(x, y, ms) => [x, y, ms]
  }

  lemma LineIsSpaced(c: Command)
    ensures c.Line() == Spaced(NameOf(c), ArgsOf(c))
  {
    var name, args := NameOf(c), ArgsOf(c);
    if |args| >= 2 {
      assert args[..|args| - 1][..|args| - 2] == args[..|args| - 2];
      SpacedTwo(name, args[0], args[1]);
      if |args| == 3 {
        assert args[..2] == [args[0], args[1]];
      } else {
        assert args == [args[0], args[1]];
      }
      match c {
        case Gpio(_, _) => assert "gpio " == "gpio" + " ";
        case Pulse(_, _, _) => assert "pulse " == "pulse" + " ";
        case Touch(_, _) => assert "touch " == "touch" + " ";
        case Tap(_, _, _) => assert "tap " == "tap" + " ";
      }
    }
  }

  lemma SpacedTwo(name: string, a: nat, b: nat)
    ensures Spaced(name, [a, b]) == name + " " + Print(a) + " " + Print(b)
  {
    assert [a][..0] == [] && Spaced(name, []) == name;
    assert Spaced(name, [a]) == name + " " + Print(a);
    assert [a, b][..1] == [a];
  }

  /** Every command that passes the host's checks prints to a line the agent reads back as that command. */
  lemma CommandUnderstood(g: Guest, c: Command)
    requires c.InRange() && Sized(g)
    ensures HandleLine(g, c.Line()) == c.Meaning(g)
    ensures 1 <= |c.Line()| < LINE_SIZE && NoBreak(c.Line())
  {
    var name, args := NameOf(c), ArgsOf(c);
    LineIsSpaced(c);
    NamePrintable(name, match c case Ping => 0 case Gpio(_, _) => 1 case Pulse(_, _, _) => 2
                              case Touch(_, _) => 3 case Release => 4 case Tap(_, _, _) => 5);
    SpacedReads(name, args);
    SpacedShort(name, args);
    assert Words(CString("")) == [];
    ArgsRead(g, c, [name] + Printed(args));
  }

  lemma ArgsRead(g: Guest, c: Command, w: seq<string>)
    requires c.InRange() && |g.level| == |g.gpioEvents| == MAX_PIN + 1
    requires Words(CString(c.Line())) == w == [NameOf(c)] + Printed(ArgsOf(c))
    ensures HandleLine(g, c.Line()) == c.Meaning(g)
  {
    hide IntArg, Words, CString, Command.Line;
    match c {
      case Ping =>
      case Release =>
      case Gpio(pin, level) =>
        ArgReads(w, 1, pin, 0, MAX_PIN);
        ArgReads(w, 2, level, 0, 1);
      case Pulse(pin, level, ms) =>
        ArgReads(w, 1, pin, 0, MAX_PIN);
        ArgReads(w, 2, level, 0, 1);
        ArgReads(w, 3, ms, 1, 10000);
      case Touch(x, y) =>
        ArgReads(w, 1, x, 0, 4095);
        ArgReads(w, 2, y, 0, 4095);
      case Tap(x, y, ms) =>
        ArgReads(w, 1, x, 0, 4095);
        ArgReads(w, 2, y, 0, 4095);
        ArgReads(w, 3, ms, 1, 10000);
    }
  }

  // ---- The task ----

  /** The agent task's memory: the injected state firmware polls, and the line being received. `uart` is
      every line it has written. */
  class AgentTask {
    var touchHeld: bool
    var touchX: int
    var touchY: int
    var touchEvents: nat
    const gpioLevel: array<int>
    const gpioEvents: array<nat>
    const line: array<char>
    var len: nat
    var uart: seq<string>

    ghost predicate Valid()
      reads this
    {
      gpioLevel.Length == gpioEvents.Length == MAX_PIN + 1 && line.Length == LINE_SIZE && len < LINE_SIZE
    }

    function Injected(): Guest
      reads this, gpioLevel, gpioEvents
    {
      Guest(touchHeld, touchX, touchY, touchEvents, gpioLevel[..], gpioEvents[..])
    }

    function Abs(): Reader
      requires len <= line.Length
      reads this, gpioLevel, gpioEvents, line
    {
      Reader(Injected(), line[..len], uart)
    }

    constructor ()
      ensures Valid() && Abs() == Reader(FRESH, "", [BANNER])
      ensures fresh(gpioLevel) && fresh(gpioEvents) && fresh(line)
    {
      touchHeld, touchX, touchY, touchEvents := false, 0, 0, 0;
      gpioLevel := new int[MAX_PIN + 1](_ => -1);
      gpioEvents := new nat[MAX_PIN + 1](_ => 0);
      line := new char[LINE_SIZE](_ => NUL);
      len, uart := 0, [BANNER];
    }

    method Reply(text: string)
      modifies this`uart
      ensures uart == old(uart) + [text]
    {
      uart := uart + [text];
    }

    method Press(x: int, y: int)
      modifies this`touchHeld, this`touchX, this`touchY, this`touchEvents
      ensures Injected() == old(Injected()).Touch(x, y)
    {
      touchX, touchY, touchHeld := x, y, true;
      touchEvents := touchEvents + 1;
    }

    /** The commands that move a pin. */
    method HandlePin(w: seq<string>, pulse: bool) returns (asleep: Option<Guest>)
      requires Valid() && |w| > 0 && w[0] == (if pulse then "pulse" else "gpio")
      requires Words(CString(line[..len])) == w
      modifies this`uart, gpioLevel, gpioEvents
      ensures Valid()
      ensures var h := HandleLine(old(Injected()), old(line[..len]));
              Injected() == h.guest && asleep == h.asleep && uart == old(uart) + [h.reply]
    {
      hide Words, IntArg, CString;
      asleep := None;
      var pin, level := IntArg(w, 1, 0, MAX_PIN), IntArg(w, 2, 0, 1);
      if !pulse {
        if pin.None? || level.None? {
          Reply(Err("gpio needs <pin 0-63> <0|1>"));
          return;
        }
        if level.value == 0 && gpioLevel[pin.value] != 0 {
          gpioEvents[pin.value] := gpioEvents[pin.value] + 1;
        }
        gpioLevel[pin.value] := level.value;
      } else {
        var ms := IntArg(w, 3, 1, 10000);
        if pin.None? || level.None? || ms.None? {
          Reply(Err("pulse needs <pin 0-63> <0|1> <ms 1-10000>"));
          return;
        }
        gpioLevel[pin.value] := level.value;
        asleep := Some(Injected());
        gpioLevel[pin.value] := 1 - level.value;
        gpioEvents[pin.value] := gpioEvents[pin.value] + 1;
      }
      Reply("ok");
    }

    /** The commands that touch the screen. */
    method HandleTouch(w: seq<string>) returns (asleep: Option<Guest>)
      requires Valid() && |w| > 0 && w[0] in ["touch", "release", "tap"]
      requires Words(CString(line[..len])) == w
      modifies this`uart, this`touchHeld, this`touchX, this`touchY, this`touchEvents
      ensures var h := HandleLine(old(Injected()), old(line[..len]));
              Injected() == h.guest && asleep == h.asleep && uart == old(uart) + [h.reply]
    {
      hide Words, IntArg, CString;
      asleep := None;
      var x, y := IntArg(w, 1, 0, 4095), IntArg(w, 2, 0, 4095);
      if w[0] == "touch" {
        if x.None? || y.None? {
          Reply(Err("touch needs <x> <y>"));
          return;
        }
        Press(x.value, y.value);
      } else if w[0] == "release" {
        touchHeld := false;
      } else {
        var ms := IntArg(w, 3, 1, 10000);
        if x.None? || y.None? || ms.None? {
          Reply(Err("tap needs <x> <y> <ms 1-10000>"));
          return;
        }
        Press(x.value, y.value);
        asleep := Some(Injected());
        touchHeld := false;
      }
      Reply("ok");
    }

    /** One line. `asleep` is what firmware can read while the task delays inside it. */
    method Handle() returns (asleep: Option<Guest>)
      requires Valid()
      modifies this, gpioLevel, gpioEvents
      ensures Valid() && len == old(len)
      ensures var h := HandleLine(old(Injected()), old(line[..len]));
              Injected() == h.guest && asleep == h.asleep && uart == old(uart) + [h.reply]
    {
      hide IntArg, CString;
      asleep := None;
      var w := Words(CString(line[..len]));
      if w == [] {
        Reply(Err("empty command"));
      } else if w[0] == "ping" {
        Reply("ok esprite-agent v1");
      } else if w[0] == "gpio" || w[0] == "pulse" {
        asleep := HandlePin(w, w[0] == "pulse");
      } else if w[0] == "touch" || w[0] == "release" || w[0] == "tap" {
        asleep := HandleTouch(w);
      } else {
        Reply(Err("unknown command"));
      }
    }

    /** One received byte. */
    method ReceiveByte(c: char)
      requires Valid()
      modifies this, gpioLevel, gpioEvents, line
      ensures Valid() && Abs() == OnByte(old(Abs()), c)
    {
      hide HandleLine;
      if c == '\n' || c == '\r' {
        if len > 0 {
          var _ := Handle();
          len := 0;
        }
      } else if len < line.Length - 1 {
        line[len] := c;
        len := len + 1;
        assert line[..len] == old(line[..len]) + [c];
      } else {
        len := 0;
        Reply(Err("line too long"));
      }
    }

    method Receive(bytes: string)
      requires Valid()
      modifies this, gpioLevel, gpioEvents, line
      ensures Valid() && Abs() == Feed(old(Abs()), bytes)
    {
      hide OnByte;
      var i := 0;
      while i < |bytes|
        invariant 0 <= i <= |bytes| && Valid()
        invariant Abs() == Feed(old(Abs()), bytes[..i])
      {
        assert bytes[..i + 1][..i] == bytes[..i];
        ReceiveByte(bytes[i]);
        i := i + 1;
      }
      assert bytes[..i] == bytes;
    }
  }
}
