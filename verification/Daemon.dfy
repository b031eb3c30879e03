/** The persistent session: one JSON command a line in, one JSON reply a line out.

    Lines are read through a fixed buffer with C string rules, so what a "line" is depends on its length and
    on NUL bytes. JSON parsing, the boards and the firmware's answers are parameters: `Board` says what each
    would do, indexed by how many commands came before, so any behaviour over time is one of its values.
 */
module Daemon {
  import opened CLang
  import opened JsonPages
  import opened LineFraming
  import opened Pixels

  const LINE_BUFFER := 131072

  datatype Command = Command(cmd: string, target: string)

  /** The error kinds a session reply can carry. */
  datatype ErrorKind = BadArgs | AlreadyBooted | UnknownTarget | BackendUnavailable | NotBooted | Unsupported
                     | RefNotFound | CaptureFailed | ExpectFailed | AgentFailed | PostFailed {
    function Name(): string {
      match this
      case BadArgs => "bad_args"
      case AlreadyBooted => "already_booted"
      case UnknownTarget => "unknown_target"
      case BackendUnavailable => "backend_unavailable"
      case NotBooted => "not_booted"
      case Unsupported => "unsupported"
      case RefNotFound => "ref_not_found"
      case CaptureFailed => "capture_failed"
      case ExpectFailed => "expect_failed"
      case AgentFailed => "agent_failed"
      case PostFailed => "post_failed"
    }
  }

  datatype HidEvent = HidEvent(press: bool, key: int, modifier: int)

  /** The replies the session's handlers can print, by form. Every text in them is the firmware's own. */
  datatype Answer = Done | Refused(kind: ErrorKind, message: string) | Tapped(x: int, y: int)
                  | Shot(ok: bool, path: string, w: int, h: int) | Ui(widgets: seq<Widget>) | Matched(found: bool)
                  | Logs(text: string) | Items(received: seq<string>) | Hid(events: seq<HidEvent>)

  datatype Caps = Caps(qemu: bool, display: bool, agent: bool, http: bool)

  datatype Board = Board(parse: string -> Option<Command>, isJson: string -> bool, fallback: string,
                         targets: map<string, Caps>, bootError: (nat, string) -> Option<string>,
                         answer: (nat, string) -> Answer) {
    /** A radio line that is JSON goes through raw, so it must not hold a newline. Nothing else is asked. */
    ghost predicate Valid() {
      forall n, text :: answer(n, text).Items? ==> RawLinesPlain(isJson, answer(n, text).received)
    }
  }

  ghost predicate RawLinesPlain(isJson: string -> bool, received: seq<string>) {
    forall i :: 0 <= i < |received| && isJson(received[i]) ==> Plain(received[i])
  }

  // ---- Replies ----

  function ErrorReply(kind: ErrorKind, message: string): string {
    "{\"error\":{\"kind\":\"" + kind.Name() + "\",\"message\":\"" + Escape(message) + "\"}}"
  }

  function ClippedAnswer(): Answer { Refused(BadArgs, "line too long (max 131071 bytes)") }

  /** Received radio lines: JSON goes through as it is, anything else is quoted. */
  function ItemList(isJson: string -> bool, received: seq<string>): string {
    if received == [] then ""
    else
      var last := received[|received| - 1];
      ItemList(isJson, received[..|received| - 1]) + (if |received| == 1 then "" else ",") +
      (if isJson(last) then last else "\"" + Escape(last) + "\"")
  }

  function HidText(e: HidEvent): string {
    "{\"press\":" + Bool(e.press) + ",\"key\":" + PrintInt(e.key) + ",\"modifier\":" + PrintInt(e.modifier) + "}"
  }

  function HidTexts(events: seq<HidEvent>): seq<string> {
    seq(|events|, i requires 0 <= i < |events| => HidText(events[i]))
  }

  function AnswerText(isJson: string -> bool, a: Answer): string {
    match a
    case Done => "{\"ok\":true}"
    case Refused(kind, message) => ErrorReply(kind, message)
    case Tapped(x, y) => "{\"ok\":true,\"x\":" + PrintInt(x) + ",\"y\":" + PrintInt(y) + "}"
    case Shot(ok, path, w, h) =>
      "{\"ok\":" + Bool(ok) + ",\"path\":\"" + Escape(path) + "\",\"w\":" + PrintInt(w) + ",\"h\":" + PrintInt(h) + "}"
    case Ui(widgets) => "[" + Commas(Texts(Numbered(widgets))) + "]"
    case Matched(found) => "{\"matched\":" + Bool(found) + "}"
    case Logs(text) => "{\"serial\":\"" + Escape(text) + "\"}"
    case Items(received) => "{\"items\":[" + ItemList(isJson, received) + "]}"
    case Hid(events) => "{\"items\":[" + Commas(HidTexts(events)) + "]}"
  }

  // Some replies as they are printed.

  lemma SmallNumbers()
    ensures PrintInt(3) == "3" && PrintInt(-4) == "-4" && PrintInt(8) == "8"
    ensures PrintInt(6) == "6" && PrintInt(5) == "5" && PrintInt(2) == "2"
  {
    assert PrintInt(4) == "4" && PrintInt(-4) == "-" + PrintInt(4) && "-" + "4" == "-4";
  }

  lemma TappedPrints(isJson: string -> bool)
    ensures AnswerText(isJson, Tapped(3, -4)) == "{\"ok\":true,\"x\":3,\"y\":-4}"
  {
    SmallNumbers();
    hide PrintInt, Escape;
  }

  lemma ShotPrints(isJson: string -> bool)
    ensures AnswerText(isJson, Shot(true, "a", 8, 6)) == "{\"ok\":true,\"path\":\"a\",\"w\":8,\"h\":6}"
  {
    SmallNumbers();
    EscapesAre('a');
    hide PrintInt, Escape;
    assert "{\"ok\":" + "true" + ",\"path\":\"" + "a" == "{\"ok\":true,\"path\":\"a";
  }

  lemma HidPrints()
    ensures HidText(HidEvent(true, 5, 2)) == "{\"press\":true,\"key\":5,\"modifier\":2}"
  {
    SmallNumbers();
    hide PrintInt, Escape;
    assert "{\"press\":" + "true" == "{\"press\":true";
    assert "{\"press\":true" + ",\"key\":" + "5" == "{\"press\":true,\"key\":5";
  }

  lemma ErrorPrints(isJson: string -> bool)
    ensures AnswerText(isJson, Refused(NotBooted, "a")) == "{\"error\":{\"kind\":\"not_booted\",\"message\":\"a\"}}"
  {
    EscapesAre('a');
    hide PrintInt, Escape;
    assert "{\"error\":{\"kind\":\"" + "not_booted" == "{\"error\":{\"kind\":\"not_booted";
  }

  lemma PrintableIsPlain(s: string)
    requires Printable(s)
    ensures Plain(s)
  {
    assert forall i :: 0 <= i < |s| ==> s[i] != '\n';
  }

  lemma Three(a: string, b: string, c: string)
    requires Printable(a) && Printable(b) && Printable(c)
    ensures Printable(a + b + c)
  {
    PrintableJoin(a, b);
    PrintableJoin(a + b, c);
  }

  lemma Five(a: string, b: string, c: string, d: string, e: string)
    requires Printable(a) && Printable(b) && Printable(c) && Printable(d) && Printable(e)
    ensures Printable(a + b + c + d + e)
  {
    Three(a, b, c);
    Three(a + b + c, d, e);
  }

  lemma NumbersPrintable(v: int, b: bool)
    ensures Printable(PrintInt(v)) && Printable(Bool(b))
  {
    NumberPlain(v);
    PlainIsPrintable(PrintInt(v));
  }

  lemma KindsPrintable(k: ErrorKind)
    ensures Printable(k.Name())
  {
    hide ErrorKind.Name;
    if k.BadArgs? || k.AlreadyBooted? || k.UnknownTarget? || k.BackendUnavailable? || k.NotBooted? {
      BootKindsPrintable(k);
    } else {
      HandlerKindsPrintable(k);
    }
  }

  lemma BootKindsPrintable(k: ErrorKind)
    requires k.BadArgs? || k.AlreadyBooted? || k.UnknownTarget? || k.BackendUnavailable? || k.NotBooted?
    ensures Printable(k.Name())
  {
  }

  lemma HandlerKindsPrintable(k: ErrorKind)
    requires k in {Unsupported, RefNotFound, CaptureFailed, ExpectFailed, AgentFailed, PostFailed}
    ensures Printable(k.Name())
  {
  }

  /** Whatever the message holds, an error reply is one line. */
  lemma ErrorIsPlain(kind: ErrorKind, message: string)
    ensures Printable(ErrorReply(kind, message))
  {
    hide Printable, ErrorKind.Name;
    EscapedIsPrintable(message);
    KindsPrintable(kind);
    ErrorFrame();
    Five("{\"error\":{\"kind\":\"", kind.Name(), "\",\"message\":\"", Escape(message), "\"}}");
  }

  lemma ErrorFrame()
    ensures Printable("{\"error\":{\"kind\":\"") && Printable("\",\"message\":\"") && Printable("\"}}")
  {
  }

  /** So is every other reply, but for raw radio lines, which are so exactly when they hold no newline. */
  lemma AnswerIsPlain(isJson: string -> bool, a: Answer)
    ensures Plain(AnswerText(isJson, a)) <==> (a.Items? ==> RawLinesPlain(isJson, a.received))
  {
    hide Printable, ErrorReply, HidTexts, Texts, Numbered, Bool, PrintInt, ItemList, Commas, Escape, Plain;
    match a {
      case Done => DoneFrame();
      case Refused(kind, message) => ErrorIsPlain(kind, message);
      case Tapped(x, y) =>
        NumbersPrintable(x, true);
        NumbersPrintable(y, true);
        TappedFrame();
        Five("{\"ok\":true,\"x\":", PrintInt(x), ",\"y\":", PrintInt(y), "}");
      case Shot(ok, path, w, h) => ShotIsPrintable(ok, path, w, h);
      case Ui(widgets) =>
        UiIsPrintable(widgets);
        Braces();
        Three("[", Commas(Texts(Numbered(widgets))), "]");
      case Matched(found) =>
        NumbersPrintable(0, found);
        MatchedFrame();
        Three("{\"matched\":", Bool(found), "}");
      case Logs(text) =>
        EscapedIsPrintable(text);
        LogsFrame();
        Three("{\"serial\":\"", Escape(text), "\"}");
      case Items(received) =>
        ItemsPlain(isJson, received);
        ItemsFrame();
        PlainParts("{\"items\":[", ItemList(isJson, received), "]}");
      case Hid(events) =>
        HidIsPrintable(events);
        ItemsFrame();
        Three("{\"items\":[", Commas(HidTexts(events)), "]}");
    }
    if !a.Items? {
      PrintableIsPlain(AnswerText(isJson, a));
    }
  }

  lemma DoneFrame()
    ensures Printable("{\"ok\":true}")
  {
  }

  lemma TappedFrame()
    ensures Printable("{\"ok\":true,\"x\":") && Printable(",\"y\":") && Printable("}")
  {
  }

  lemma MatchedFrame()
    ensures Printable("{\"matched\":") && Printable("}")
  {
  }

  lemma LogsFrame()
    ensures Printable("{\"serial\":\"") && Printable("\"}")
  {
  }

  lemma ItemsFrame()
    ensures Printable("{\"items\":[") && Printable("]}") && Plain("{\"items\":[") && Plain("]}")
  {
  }

  lemma ShotFrame()
    ensures Printable("{\"ok\":") && Printable(",\"path\":\"") && Printable("\",\"w\":") && Printable(",\"h\":") && Printable("}")
  {
  }

  lemma ShotIsPrintable(ok: bool, path: string, w: int, h: int)
    ensures Printable("{\"ok\":" + Bool(ok) + ",\"path\":\"" + Escape(path) + "\",\"w\":" + PrintInt(w) + ",\"h\":" + PrintInt(h) + "}")
  {
    hide Printable, Bool, PrintInt, Escape;
    ShotFrame();
    NumbersPrintable(w, ok);
    NumbersPrintable(h, ok);
    EscapedIsPrintable(path);
    Five("{\"ok\":", Bool(ok), ",\"path\":\"", Escape(path), "\",\"w\":");
    Five("{\"ok\":" + Bool(ok) + ",\"path\":\"" + Escape(path) + "\",\"w\":", PrintInt(w), ",\"h\":", PrintInt(h), "}");
  }

  lemma UiIsPrintable(widgets: seq<Widget>)
    ensures Printable(Commas(Texts(Numbered(widgets))))
  {
    hide Printable, WidgetText;
    var texts := Texts(Numbered(widgets));
    forall i | 0 <= i < |texts|
      ensures Printable(texts[i])
    {
      WidgetIsPrintable(Numbered(widgets)[i]);
    }
    CommasArePrintable(texts);
  }

  lemma HidFrame()
    ensures Printable("{\"press\":") && Printable(",\"key\":") && Printable(",\"modifier\":") && Printable("}")
  {
  }

  lemma HidIsPrintable(events: seq<HidEvent>)
    ensures Printable(Commas(HidTexts(events)))
  {
    hide Printable, Bool, PrintInt;
    var texts := HidTexts(events);
    forall i | 0 <= i < |texts|
      ensures Printable(texts[i])
    {
      var e := events[i];
      HidFrame();
      NumbersPrintable(e.key, e.press);
      NumbersPrintable(e.modifier, e.press);
      Five("{\"press\":", Bool(e.press), ",\"key\":", PrintInt(e.key), ",\"modifier\":");
      Three("{\"press\":" + Bool(e.press) + ",\"key\":" + PrintInt(e.key) + ",\"modifier\":", PrintInt(e.modifier), "}");
    }
    CommasArePrintable(texts);
  }

  /** The radio reply is one line exactly when no raw JSON line holds a newline. */
  lemma {:induction false} ItemsPlain(isJson: string -> bool, received: seq<string>)
    ensures Plain(ItemList(isJson, received)) <==> RawLinesPlain(isJson, received)
  {
    hide Escape, Plain;
    if received == [] {
      PrintableIsPlain("");
    } else {
      var front, last := received[..|received| - 1], received[|received| - 1];
      var item := if isJson(last) then last else "\"" + Escape(last) + "\"";
      var sep := if |received| == 1 then "" else ",";
      ItemsPlain(isJson, front);
      QuotedPlain(last);
      PlainParts(ItemList(isJson, front), sep, item);
      assert forall i :: 0 <= i < |front| ==> front[i] == received[i];
    }
  }

  lemma QuotedPlain(s: string)
    ensures Plain("\"" + Escape(s) + "\"") && Plain("") && Plain(",")
  {
    hide Printable, Escape;
    EscapedIsPrintable(s);
    Braces();
    Three("\"", Escape(s), "\"");
    PrintableIsPlain("\"" + Escape(s) + "\"");
  }

  lemma PlainParts(a: string, b: string, c: string)
    ensures Plain(a + b + c) <==> Plain(a) && Plain(b) && Plain(c)
  {
    assert forall ch: char :: ch in a + b + c <==> ch in a || ch in b || ch in c;
  }

  // ---- One command ----

  const COMMANDS := ["ui", "screenshot", "tap", "swipe", "expect", "button", "battery", "rotate", "motion", "gpio",
                     "wifi", "snapshot", "steps", "ble", "serial", "logs"]

  datatype Session = Session(booted: bool, qemu: bool, target: string)

  const START := Session(false, false, "")

  /** What a qemu board supports follows from its spec. */
  predicate QemuAllows(cmd: string, caps: Caps) {
    if cmd in ["serial", "logs", "quit", "exit"] then true
    else if cmd == "screenshot" then caps.display
    else if cmd in ["tap", "swipe", "gpio", "button"] then caps.agent
    else cmd == "snapshot" && caps.http
  }

  function UnsupportedMessage(cmd: string, key: string): string {
    "'" + cmd + "' is not supported on qemu-backed target '" + key + "'" +
    (if cmd == "screenshot" then " (its board spec declares no display)"
     else if cmd in ["tap", "swipe", "gpio", "button"] then " (its board spec declares no input agent)"
     else if cmd == "snapshot" then " (its board spec declares no http capability)"
     else " (serial/logs only)")
  }

  datatype Step = Quit | Next(session: Session, reply: Answer)

  function Boot(b: Board, n: nat, s: Session, asked: string): Step {
    if s.booted then Next(s, Refused(AlreadyBooted, "one boot per run session; start a new session to boot again"))
    else
      var t := if asked == "" then b.fallback else asked;
      if t !in b.targets then Next(s.(booted := false), Refused(UnknownTarget, "unknown target '" + t + "'"))
      else
        match b.bootError(n, t)
        case None => Next(Session(true, b.targets[t].qemu, t), Done)
        case Some(why) =>
          Next(Session(false, b.targets[t].qemu, s.target),
               Refused(BackendUnavailable, if why == "" then "could not boot '" + t + "'" else why))
  }

  /** The n-th command of a session. */
  function Handle(b: Board, n: nat, s: Session, text: string): Step {
    match b.parse(text)
    case None => Next(s, Refused(BadArgs, "line is not valid JSON"))
    case Some(Command(cmd, asked)) =>
      if cmd == "boot" then Boot(b, n, s, asked)
      else if cmd == "quit" || cmd == "exit" then Quit
      else if !s.booted then Next(s, Refused(NotBooted, "boot a target first"))
      else if s.qemu && s.target in b.targets && !QemuAllows(cmd, b.targets[s.target]) then
        Next(s, Refused(Unsupported, UnsupportedMessage(cmd, s.target)))
      else if cmd in COMMANDS then Next(s, b.answer(n, text))
      else Next(s, Refused(BadArgs, "unknown cmd '" + cmd + "'"))
  }

  /** Until a boot succeeded nothing reaches the firmware; a boot succeeds exactly on a known target whose
      backend comes up, once. */
  lemma BootGate(b: Board, n: nat, s: Session, text: string)
    requires Handle(b, n, s, text).Next?
    ensures var next, c := Handle(b, n, s, text), b.parse(text);
            && (c.None? || c.value.cmd != "boot" ==> next.session == s)
            && (c.Some? && c.value.cmd == "boot" && s.booted ==> next == Next(s, next.reply) && next.reply.Refused?)
            && (c.Some? && c.value.cmd == "boot" && !s.booted ==>
                  var t := if c.value.target == "" then b.fallback else c.value.target;
                  && (next.session.booted <==> t in b.targets && b.bootError(n, t).None?)
                  && (next.session.booted ==> next.session.target == t && next.session.qemu == b.targets[t].qemu)
                  && (next.session.booted <==> next.reply.Done?))
            && (!s.booted && !next.session.booted ==> next.reply.Refused?)
  {
    hide UnsupportedMessage, QemuAllows, Escape;
  }

  // What a command draws, from the parsed line, the session's flags and the board's capabilities.

  predicate Ends(cmd: string) { cmd == "quit" || cmd == "exit" }

  predicate Known(cmd: string) {
    || cmd == "ui" || cmd == "screenshot" || cmd == "tap" || cmd == "swipe" || cmd == "expect" || cmd == "button"
    || cmd == "battery" || cmd == "rotate" || cmd == "motion" || cmd == "gpio" || cmd == "wifi" || cmd == "snapshot"
    || cmd == "steps" || cmd == "ble" || cmd == "serial" || cmd == "logs"
  }

  /** A qemu board takes serial and logs, and what its display, its agent and its http server are for. */
  predicate Covered(cmd: string, caps: Caps) {
    || cmd == "serial" || cmd == "logs"
    || (cmd == "screenshot" && caps.display)
    || ((cmd == "tap" || cmd == "swipe" || cmd == "gpio" || cmd == "button") && caps.agent)
    || (cmd == "snapshot" && caps.http)
  }

  /** The session accepts the command. */
  predicate Allowed(b: Board, s: Session, cmd: string) {
    s.qemu && s.target in b.targets ==> Covered(cmd, b.targets[s.target])
  }

  lemma KnownIsListed(cmd: string)
    ensures cmd in COMMANDS <==> Known(cmd)
  {
    if Known(cmd) {
      Listed();
    }
  }

  lemma Listed()
    ensures "ui" in COMMANDS && "screenshot" in COMMANDS && "tap" in COMMANDS && "swipe" in COMMANDS
    ensures "expect" in COMMANDS && "button" in COMMANDS && "battery" in COMMANDS && "rotate" in COMMANDS
    ensures "motion" in COMMANDS && "gpio" in COMMANDS && "wifi" in COMMANDS && "snapshot" in COMMANDS
    ensures "steps" in COMMANDS && "ble" in COMMANDS && "serial" in COMMANDS && "logs" in COMMANDS
  {
    var c := COMMANDS;
    assert c[0] == "ui" && c[1] == "screenshot" && c[2] == "tap" && c[3] == "swipe" && c[4] == "expect" && c[5] == "button";
    assert c[6] == "battery" && c[7] == "rotate" && c[8] == "motion" && c[9] == "gpio" && c[10] == "wifi";
    assert c[11] == "snapshot" && c[12] == "steps" && c[13] == "ble" && c[14] == "serial" && c[15] == "logs";
  }

  lemma CoveredIsAllowed(cmd: string, caps: Caps)
    requires !Ends(cmd)
    ensures QemuAllows(cmd, caps) <==> Covered(cmd, caps)
  {
  }

  /** Only quit and exit end a session, in any state. A boot aside, a command that does not is refused before a boot,
      refused by a qemu board that does not cover it, refused when there is no such command, and answered by the board
      otherwise. */
  lemma CommandDraws(b: Board, n: nat, s: Session, text: string)
    ensures var step, c := Handle(b, n, s, text), b.parse(text);
            && (step.Quit? <==> c.Some? && Ends(c.value.cmd))
            && (c.None? ==> step == Next(s, Refused(BadArgs, "line is not valid JSON")))
            && (c.Some? && c.value.cmd != "boot" && !Ends(c.value.cmd) ==>
                  var cmd := c.value.cmd;
                  && step.Next? && step.session == s
                  && (!s.booted ==> step.reply == Refused(NotBooted, "boot a target first"))
                  && (s.booted && !Allowed(b, s, cmd) ==> step.reply == Refused(Unsupported, UnsupportedMessage(cmd, s.target)))
                  && (s.booted && Allowed(b, s, cmd) && !Known(cmd) ==> step.reply == Refused(BadArgs, "unknown cmd '" + cmd + "'"))
                  && (s.booted && Allowed(b, s, cmd) && Known(cmd) ==> step.reply == b.answer(n, text)))
  {
    var c := b.parse(text);
    if c.Some? && c.value.cmd != "boot" && !Ends(c.value.cmd) {
      KnownIsListed(c.value.cmd);
      if s.qemu && s.target in b.targets {
        CoveredIsAllowed(c.value.cmd, b.targets[s.target]);
      }
      hide Known, Covered, QemuAllows, UnsupportedMessage, COMMANDS;
    } else {
      hide Known, Covered, QemuAllows, UnsupportedMessage, COMMANDS, Boot;
    }
  }

  /** A boot is refused in a booted session, on a key no board has and when the backend does not come up, each in its
      own words, and otherwise done. */
  lemma BootDraws(b: Board, n: nat, s: Session, text: string)
    requires b.parse(text).Some? && b.parse(text).value.cmd == "boot"
    ensures var step, asked := Handle(b, n, s, text), b.parse(text).value.target;
            var t := if asked == "" then b.fallback else asked;
            && step.Next?
            && (s.booted ==>
                  step == Next(s, Refused(AlreadyBooted, "one boot per run session; start a new session to boot again")))
            && (!s.booted && t !in b.targets ==> step.reply == Refused(UnknownTarget, "unknown target '" + t + "'"))
            && (!s.booted && t in b.targets && b.bootError(n, t).None? ==>
                  step == Next(Session(true, b.targets[t].qemu, t), Done))
            && (!s.booted && t in b.targets && b.bootError(n, t).Some? ==>
                  var why := b.bootError(n, t).value;
                  !step.session.booted
                  && step.reply == Refused(BackendUnavailable, if why == "" then "could not boot '" + t + "'" else why))
  {
    hide UnsupportedMessage, QemuAllows, COMMANDS;
  }

  /** Every command draws a one-line reply. */
  lemma ReplyIsPlain(b: Board, n: nat, s: Session, text: string)
    requires b.Valid()
    ensures Handle(b, n, s, text).Next? ==> Plain(AnswerText(b.isJson, Handle(b, n, s, text).reply))
  {
    hide UnsupportedMessage, QemuAllows, AnswerText, Plain;
    var h := Handle(b, n, s, text);
    if h.Next? {
      AnswerIsPlain(b.isJson, h.reply);
      assert h.reply.Items? ==> h.reply == b.answer(n, text);
    }
  }

  // ---- The whole session ----

  /** The input as lines, each with its newline; the last may lack one. */
  function Lines(input: string): seq<string>
    decreases |input|
  {
    if input == "" then []
    else
      var nl := Newline(input, 0);
      if nl == -1 then [input] else [input[..nl + 1]] + Lines(input[nl + 1..])
  }

  predicate Terminated(line: string) { line != "" && line[|line| - 1] == '\n' }

  predicate TooLong(line: string) { |line| >= LINE_BUFFER || (|line| == LINE_BUFFER - 1 && !Terminated(line)) }

  /** A NUL hides the newline from `strchr`, so the reader takes the line for an unfinished one. */
  predicate Swallows(line: string) { !TooLong(line) && Terminated(line) && NUL in line }

  function Reply(b: Board, n: nat, s: Session, line: string): Step {
    if TooLong(line) || Swallows(line) then Next(s, ClippedAnswer())
    else Handle(b, n, s, CString(line))
  }

  /** What is left behind the first line, or behind the two it takes with it. */
  function Behind(lines: seq<string>): seq<string>
    requires lines != []
  {
    if Swallows(lines[0]) && |lines| > 1 then lines[2..] else lines[1..]
  }

  /** The replies of a session, from its n-th command on. */
  function Serve(b: Board, n: nat, s: Session, lines: seq<string>): seq<string>
    decreases |lines|
  {
    if lines == [] then []
    else
      match Reply(b, n, s, lines[0])
      case Quit => []
      case Next(after, reply) =>
        [AnswerText(b.isJson, reply)] +
        Serve(b, n + 1, after, Behind(lines))
  }

  /** How many input lines the session used up before it quit or ran dry. */
  function Used(b: Board, n: nat, s: Session, lines: seq<string>): (u: nat)
    ensures u <= |lines|
    decreases |lines|
  {
    if lines == [] then 0
    else
      match Reply(b, n, s, lines[0])
      case Quit => 0
      case Next(after, _) =>
        if Swallows(lines[0]) && |lines| > 1 then 2 + Used(b, n + 1, after, lines[2..])
        else 1 + Used(b, n + 1, after, lines[1..])
  }

  /** One reply per line used, exactly unless a line with a NUL had another line behind it. */
  lemma {:induction false} OneReplyPerLine(b: Board, n: nat, s: Session, lines: seq<string>)
    ensures |Serve(b, n, s, lines)| <= Used(b, n, s, lines)
    ensures |Serve(b, n, s, lines)| == Used(b, n, s, lines) <==>
            !exists k :: 0 <= k && k + 1 < Used(b, n, s, lines) && Swallows(lines[k])
    decreases |lines|
  {
    hide Swallows, Handle, Reply, AnswerText;
    if lines != [] && Reply(b, n, s, lines[0]).Next? {
      var after, used := Reply(b, n, s, lines[0]).session, Used(b, n, s, lines);
      if Swallows(lines[0]) && |lines| > 1 {
        OneReplyPerLine(b, n + 1, after, lines[2..]);
        assert Swallows(lines[0]) && 0 + 1 < used;
      } else {
        var rest := lines[1..];
        OneReplyPerLine(b, n + 1, after, rest);
        assert forall k :: 0 <= k < |rest| ==> rest[k] == lines[k + 1];
        if k :| 0 <= k && k + 1 < Used(b, n + 1, after, rest) && Swallows(rest[k]) {
          assert Swallows(lines[k + 1]);
        }
        if k :| 0 <= k && k + 1 < used && Swallows(lines[k]) {
          assert k > 0 && Swallows(rest[k - 1]);
        }
      }
    }
  }

  /** Without NUL bytes the session answers every line it reads. */
  lemma NulFreeAnswersAll(b: Board, input: string)
    requires NUL !in input
    ensures |Serve(b, 0, START, Lines(input))| == Used(b, 0, START, Lines(input))
  {
    LinesKeepBytes(input);
    OneReplyPerLine(b, 0, START, Lines(input));
  }

  lemma {:induction false} LinesKeepBytes(input: string)
    requires NUL !in input
    ensures forall i :: 0 <= i < |Lines(input)| ==> NUL !in Lines(input)[i]
    decreases |input|
  {
    if input != "" && Newline(input, 0) != -1 {
      LinesKeepBytes(input[Newline(input, 0) + 1..]);
    }
  }

  /** With one, two lines can draw a single reply. */
  lemma NulSwallowsTheNextLine(b: Board)
    ensures Lines([NUL, '\n', 'x', '\n']) == [[NUL, '\n'], ['x', '\n']]
    ensures Serve(b, 0, START, Lines([NUL, '\n', 'x', '\n'])) == [AnswerText(b.isJson, ClippedAnswer())]
  {
    var input := [NUL, '\n', 'x', '\n'];
    assert Newline(input, 0) == 1 && input[..2] == [NUL, '\n'];
    var rest := input[2..];
    assert rest == ['x', '\n'] && Newline(rest, 0) == 1 && rest[..2] == rest && rest[2..] == "";
    var lines := Lines(input);
    assert Lines(rest) == [rest] + Lines("");
    assert lines == [[NUL, '\n'], rest];
    assert lines[2..] == [] && Serve(b, 1, START, []) == [];
  }

  /** The session after some lines none of which ends it. */
  function After(b: Board, s: Session, lines: seq<string>): Option<Session> {
    if lines == [] then Some(s)
    else
      match After(b, s, lines[..|lines| - 1])
      case None => None
      case Some(before) =>
        match Reply(b, |lines| - 1, before, lines[|lines| - 1])
        case Quit => None
        case Next(after, _) => Some(after)
  }

  ghost predicate NoneSwallows(lines: seq<string>) {
    forall i :: 0 <= i < |lines| ==> !Swallows(lines[i])
  }

  /** Pairing: each further line adds its own reply, or ends the session with none. */
  lemma ServeSnoc(b: Board, lines: seq<string>, line: string)
    requires NoneSwallows(lines)
    ensures var served, s := Serve(b, 0, START, lines), After(b, START, lines);
            && Serve(b, 0, START, lines + [line]) ==
                 served + (if s.None? then [] else Serve(b, |lines|, s.value, [line]))
            && (s.Some? ==> |served| == |lines|)
  {
    ServeFrom(b, lines, 0, START, lines, line);
    assert lines[..0] == [];
  }

  lemma {:induction false} ServeFrom(b: Board, all: seq<string>, k: nat, s: Session, rest: seq<string>, line: string)
    requires NoneSwallows(all) && k <= |all| && rest == all[k..] && After(b, START, all[..k]) == Some(s)
    ensures var end := After(b, START, all);
            && Serve(b, k, s, rest + [line]) ==
                 Serve(b, k, s, rest) + (if end.None? then [] else Serve(b, |all|, end.value, [line]))
            && (end.Some? ==> |Serve(b, k, s, rest)| == |rest|)
    decreases |rest|
  {
    hide Reply, AnswerText, Swallows;
    if rest == [] {
      assert all[..k] == all && rest + [line] == [line];
    } else {
      var l := rest[0];
      assert l == all[k] && !Swallows(l);
      assert all[..k + 1][..k] == all[..k];
      assert (rest + [line])[0] == l && (rest + [line])[1..] == rest[1..] + [line];
      match Reply(b, k, s, l) {
        case Quit =>
          assert After(b, START, all[..k + 1]) == None;
          StaysEnded(b, all, k + 1);
        case Next(after, r) =>
          ServeFrom(b, all, k + 1, after, rest[1..], line);
      }
    }
  }

  lemma {:induction false} StaysEnded(b: Board, all: seq<string>, k: nat)
    requires k <= |all| && After(b, START, all[..k]) == None
    ensures After(b, START, all) == None
    decreases |all| - k
  {
    hide Reply;
    if k < |all| {
      assert all[..k + 1][..k] == all[..k];
      StaysEnded(b, all, k + 1);
    } else {
      assert all[..k] == all;
    }
  }

  /** Reply k answers line k, in the session the lines before it left. */
  lemma {:induction false} ReplyToOwnLine(b: Board, lines: seq<string>, k: nat)
    requires NoneSwallows(lines) && k < |Serve(b, 0, START, lines)|
    ensures k < |lines| && After(b, START, lines[..k]).Some?
    ensures var step := Reply(b, k, After(b, START, lines[..k]).value, lines[k]);
            step.Next? && Serve(b, 0, START, lines)[k] == AnswerText(b.isJson, step.reply)
    decreases |lines|
  {
    hide Reply, AnswerText, After, Swallows;
    var front, last := lines[..|lines| - 1], lines[|lines| - 1];
    ServeSnoc(b, front, last);
    assert lines == front + [last];
    if k < |Serve(b, 0, START, front)| {
      ReplyToOwnLine(b, front, k);
      assert lines[..k] == front[..k];
    } else {
      assert lines[..k] == front;
    }
  }

  /** A session boots once: from then on neither its target nor its backend changes. */
  lemma {:induction false} StaysBooted(b: Board, lines: seq<string>, k: nat)
    requires k <= |lines| && After(b, START, lines[..k]).Some? && After(b, START, lines[..k]).value.booted
    ensures After(b, START, lines).Some? ==> After(b, START, lines) == After(b, START, lines[..k])
    decreases |lines|
  {
    hide ClippedAnswer, UnsupportedMessage, QemuAllows;
    if k == |lines| {
      assert lines[..k] == lines;
    } else {
      var front := lines[..|lines| - 1];
      assert front[..k] == lines[..k];
      StaysBooted(b, front, k);
    }
  }

  // A whole session, from its lines.

  predicate Long(line: string) {
    |line| >= 131072 || (|line| == 131071 && line[131070] != '\n')
  }

  /** Line n asks for a boot of t that comes up. */
  predicate Boots(b: Board, n: nat, line: string, t: string) {
    && !Long(line) && b.parse(CString(line)).Some? && b.parse(CString(line)).value.cmd == "boot"
    && t == (if b.parse(CString(line)).value.target == "" then b.fallback else b.parse(CString(line)).value.target)
    && t in b.targets && b.bootError(n, t).None?
  }

  /** The first of these lines that boots is line j, and it boots t. */
  ghost predicate FirstBoot(b: Board, lines: seq<string>, j: nat, t: string) {
    j < |lines| && Boots(b, j, lines[j], t) && forall i, u :: 0 <= i < j ==> !Boots(b, i, lines[i], u)
  }

  lemma ReplyMoves(b: Board, n: nat, s: Session, line: string)
    requires Reply(b, n, s, line).Next? && !Swallows(line)
    ensures var after := Reply(b, n, s, line).session;
            && (s.booted ==> after == s)
            && (!s.booted && (forall u :: !Boots(b, n, line, u)) ==> !after.booted)
            && (forall t :: !s.booted && Boots(b, n, line, t) ==> after == Session(true, b.targets[t].qemu, t))
  {
    hide UnsupportedMessage, QemuAllows, COMMANDS, CString;
    var c := b.parse(CString(line));
    if !Long(line) && c.Some? && c.value.cmd == "boot" && !s.booted {
      var t := if c.value.target == "" then b.fallback else c.value.target;
      assert Boots(b, n, line, t) <==> t in b.targets && b.bootError(n, t).None?;
    }
  }

  /** Before the first boot a session is unbooted; after it, booted on that very target. */
  lemma {:induction false} SessionAt(b: Board, lines: seq<string>, k: nat)
    requires NoneSwallows(lines) && k <= |lines| && After(b, START, lines[..k]).Some?
    ensures var s := After(b, START, lines[..k]).value;
            && ((forall i, u :: 0 <= i < k ==> !Boots(b, i, lines[i], u)) ==> !s.booted)
            && (forall j, t :: 0 <= j < k && FirstBoot(b, lines, j, t) ==> s == Session(true, b.targets[t].qemu, t))
    decreases k
  {
    hide Reply, Boots, Swallows;
    if k > 0 {
      assert lines[..k][..k - 1] == lines[..k - 1];
      SessionAt(b, lines, k - 1);
      ReplyMoves(b, k - 1, After(b, START, lines[..k - 1]).value, lines[k - 1]);
    }
  }

  /** Over a session: the reply to a line behind the first boot is the board's own answer to that very line, printed,
      when the command is one and the booted board covers it. */
  lemma AnswersAfterBoot(b: Board, lines: seq<string>, j: nat, t: string, k: nat)
    requires NoneSwallows(lines) && FirstBoot(b, lines, j, t) && j < k < |Serve(b, 0, START, lines)|
    ensures k < |lines|
    ensures Long(lines[k]) ==>
              Serve(b, 0, START, lines)[k] == AnswerText(b.isJson, Refused(BadArgs, "line too long (max 131071 bytes)"))
    ensures var c := b.parse(CString(lines[k]));
            !Long(lines[k]) && c.Some? && c.value.cmd != "boot" ==>
              var cmd := c.value.cmd;
              && !Ends(cmd)
              && Serve(b, 0, START, lines)[k] == AnswerText(b.isJson,
                   if b.targets[t].qemu && !Covered(cmd, b.targets[t]) then Refused(Unsupported, UnsupportedMessage(cmd, t))
                   else if Known(cmd) then b.answer(k, CString(lines[k]))
                   else Refused(BadArgs, "unknown cmd '" + cmd + "'"))
  {
    hide Serve, After, Handle, AnswerText, UnsupportedMessage, Known, Covered, CString, Swallows;
    ReplyToOwnLine(b, lines, k);
    SessionAt(b, lines, k);
    CommandDraws(b, k, After(b, START, lines[..k]).value, CString(lines[k]));
  }

  /** In front of it every command but a boot is refused. */
  lemma RefusedBeforeBoot(b: Board, lines: seq<string>, k: nat)
    requires NoneSwallows(lines) && k < |Serve(b, 0, START, lines)|
    requires forall i, u :: 0 <= i < k && i < |lines| ==> !Boots(b, i, lines[i], u)
    ensures k < |lines|
    ensures var c := b.parse(CString(lines[k]));
            !Long(lines[k]) && c.Some? && c.value.cmd != "boot" ==>
              Serve(b, 0, START, lines)[k] == AnswerText(b.isJson, Refused(NotBooted, "boot a target first"))
  {
    hide Serve, After, Handle, AnswerText, UnsupportedMessage, Known, Covered, CString, Swallows, Boots;
    ReplyToOwnLine(b, lines, k);
    SessionAt(b, lines, k);
    CommandDraws(b, k, After(b, START, lines[..k]).value, CString(lines[k]));
  }

  /** Every reply is one line, so the output stream frames them again. */
  lemma {:induction false} RepliesArePlain(b: Board, n: nat, s: Session, lines: seq<string>)
    requires b.Valid()
    ensures AllPlain(Serve(b, n, s, lines))
    decreases |lines|
  {
    hide Plain, Handle, AnswerText, Swallows;
    if lines != [] && Reply(b, n, s, lines[0]).Next? {
      var next := Reply(b, n, s, lines[0]);
      ReplyIsPlain(b, n, s, CString(lines[0]));
      TooLongIsPlain(b.isJson);
      RepliesArePlain(b, n + 1, next.session, if Swallows(lines[0]) && |lines| > 1 then lines[2..] else lines[1..]);
    }
  }

  lemma TooLongIsPlain(isJson: string -> bool)
    ensures Plain(AnswerText(isJson, ClippedAnswer()))
  {
    AnswerIsPlain(isJson, ClippedAnswer());
  }

  // ---- The stream and the loop over it ----

  /** A FILE being read: `fgets` and `fgetc` over bytes that arrive in order. */
  class Stream {
    const data: string
    var pos: nat
    var eof: bool

    predicate Valid()
      reads this
    {
      pos <= |data| && (eof ==> pos == |data|)
    }

    constructor (bytes: string)
      ensures Valid() && data == bytes && pos == 0 && !eof
    {
      data, pos, eof := bytes, 0, false;
    }

    /** Up to limit - 1 bytes, through the first newline; "" at the end of the input. */
    method Gets(limit: nat) returns (line: string)
      requires Valid() && limit >= 2
      modifies this`pos, this`eof
      ensures Valid() && pos == old(pos) + |line| && line == data[old(pos)..pos] && |line| < limit
      ensures forall i :: 0 <= i < |line| - 1 ==> line[i] != '\n'
      ensures if Terminated(line) || |line| == limit - 1 then !eof else eof && pos == |data|
    {
      line := "";
      if eof {
        return;
      }
      while |line| < limit - 1
        invariant Valid() && !eof && pos == old(pos) + |line| && line == data[old(pos)..pos] && |line| < limit
        invariant forall i :: 0 <= i < |line| ==> line[i] != '\n'
      {
        if pos == |data| {
          eof := true;
          return;
        }
        line, pos := line + [data[pos]], pos + 1;
        if line[|line| - 1] == '\n' {
          return;
        }
      }
    }

    /** Reads away the rest of a line. */
    method Drain()
      requires Valid() && !eof
      modifies this`pos, this`eof
      ensures Valid()
      ensures var nl := Newline(data, old(pos)); if nl == -1 then eof && pos == |data| else !eof && pos == nl + 1
    {
      while pos < |data| && data[pos] != '\n'
        invariant Valid() && !eof && Newline(data, pos) == Newline(data, old(pos))
        decreases |data| - pos
      {
        pos := pos + 1;
      }
      if pos == |data| {
        eof := true;
      } else {
        pos := pos + 1;
      }
    }
  }

  lemma {:induction false} CStringCuts(s: string)
    ensures CString(s) <= s && NUL !in CString(s)
  {
    if s != "" && s[0] != NUL {
      CStringCuts(s[1..]);
    }
  }

  /** `strchr` finds the newline that ends a line unless a NUL comes first. */
  lemma NewlineVisible(line: string)
    requires forall i :: 0 <= i < |line| - 1 ==> line[i] != '\n'
    ensures '\n' in CString(line) <==> Terminated(line) && NUL !in line
  {
    var c := CString(line);
    CStringCuts(line);
    if NUL !in line {
      CStringWhole(line);
    } else {
      assert c != line;
      assert forall i :: 0 <= i < |c| ==> c[i] == line[i];
    }
  }

  lemma NewlineIn(buf: string, i: nat)
    requires i <= |buf|
    ensures var a, b := Newline(buf, i), Newline(buf[i..], 0); b == if a == -1 then -1 else a - i
  {
    var rest, a, b := buf[i..], Newline(buf, i), Newline(buf[i..], 0);
    assert b != -1 ==> buf[i + b] == rest[b];
    assert a != -1 ==> rest[a - i] == buf[a];
  }

  /** The lines behind the first newline from a position on. */
  function Drained(data: string, at: nat): seq<string>
    requires at <= |data|
  {
    if Newline(data, at) == -1 then [] else Lines(data[Newline(data, at) + 1..])
  }

  function First(data: string, at: nat): string
    requires at <= |data|
  {
    if Newline(data, at) == -1 then data[at..] else data[at..Newline(data, at) + 1]
  }

  lemma NoMoreLines(data: string, at: nat)
    requires at < |data| && Newline(data, at) == -1
    ensures Lines(data[at..]) == [data[at..]]
  {
    hide Newline;
    NewlineIn(data, at);
  }

  lemma CutLine(data: string, at: nat)
    requires at <= |data| && Newline(data, at) != -1
    ensures var nl := Newline(data, at); Lines(data[at..]) == [data[at..nl + 1]] + Lines(data[nl + 1..])
  {
    hide Newline;
    var rest, nl := data[at..], Newline(data, at);
    NewlineIn(data, at);
    assert rest[..nl - at + 1] == data[at..nl + 1];
    assert rest[nl - at + 1..] == data[nl + 1..];
  }

  /** The first line left at a position, and what is left behind it. */
  lemma FirstLine(data: string, at: nat)
    requires at <= |data|
    ensures Lines(data[at..]) == if at == |data| then [] else [First(data, at)] + Drained(data, at)
  {
    if at < |data| {
      hide Newline, Lines;
      if Newline(data, at) == -1 {
        NoMoreLines(data, at);
      } else {
        CutLine(data, at);
      }
    }
  }

  /** A read that ends in a newline is the whole first line. */
  lemma WholeLine(data: string, from: nat, line: string)
    requires from + |line| <= |data| && line == data[from..from + |line|] && Terminated(line)
    requires forall i :: 0 <= i < |line| - 1 ==> line[i] != '\n'
    ensures Newline(data, from) == from + |line| - 1
  {
    var nl, last := Newline(data, from), from + |line| - 1;
    assert data[last] == line[|line| - 1];
    assert forall i :: from <= i < last ==> data[i] == line[i - from];
  }

  /** A read that does not is a start of it: the newline is where it was. */
  lemma ClippedLine(data: string, from: nat, line: string)
    requires from + |line| <= |data| && line == data[from..from + |line|] && !Terminated(line)
    requires forall i :: 0 <= i < |line| - 1 ==> line[i] != '\n'
    ensures Newline(data, from) == Newline(data, from + |line|)
  {
    assert forall i :: from <= i < from + |line| ==> data[i] == line[i - from];
  }

  /** A read through a newline took the first line. */
  lemma TakesWhole(data: string, from: nat, line: string)
    requires from + |line| <= |data| && line == data[from..from + |line|] && Terminated(line)
    requires forall i :: 0 <= i < |line| - 1 ==> line[i] != '\n'
    ensures Lines(data[from..]) == [line] + Lines(data[from + |line|..])
  {
    hide Lines, Newline;
    WholeLine(data, from, line);
    FirstLine(data, from);
  }

  /** A clipped or last read took a start of it; the rest of the line is still to be drained. */
  lemma TakesStart(data: string, from: nat, line: string)
    requires from + |line| <= |data| && line == data[from..from + |line|] && line != "" && !Terminated(line)
    requires |line| == LINE_BUFFER - 1 || from + |line| == |data|
    requires forall i :: 0 <= i < |line| - 1 ==> line[i] != '\n'
    ensures Lines(data[from..]) == [First(data, from)] + Drained(data, from + |line|)
    ensures |line| == LINE_BUFFER - 1 ==> TooLong(First(data, from))
    ensures from + |line| == |data| ==> First(data, from) == line && Drained(data, |data|) == []
  {
    hide Lines, Newline;
    ClippedLine(data, from, line);
    FirstLine(data, from);
    var first := First(data, from);
    if |first| == |line| {
      assert Newline(data, from) == -1 && first == line;
    }
  }

  /** Draining at the start of a line takes that line. */
  lemma DrainsNext(data: string, at: nat)
    requires at <= |data|
    ensures var rest := Lines(data[at..]); Drained(data, at) == if rest == [] then [] else rest[1..]
  {
    hide Lines, Newline;
    FirstLine(data, at);
  }

  lemma BehindFirst(line: string, rest: seq<string>)
    ensures Behind([line] + rest) == if Swallows(line) && rest != [] then rest[1..] else rest
  {
    hide Swallows;
    assert ([line] + rest)[1..] == rest;
    if rest != [] {
      assert ([line] + rest)[2..] == rest[1..];
    }
  }

  /** A whole line: where the input stands once the loop has tested it. */
  lemma AfterWhole(data: string, from: nat, line: string)
    requires from + |line| <= |data| && line == data[from..from + |line|] && Terminated(line) && |line| < LINE_BUFFER
    requires forall i :: 0 <= i < |line| - 1 ==> line[i] != '\n'
    ensures var lines, at := Lines(data[from..]), from + |line|;
            && lines != [] && lines[0] == line && !TooLong(line) && ('\n' !in CString(line) <==> Swallows(line))
            && Behind(lines) == if Swallows(line) then Drained(data, at) else Lines(data[at..])
  {
    hide Lines, CString, Drained, Newline, Behind;
    TakesWhole(data, from, line);
    BehindFirst(line, Lines(data[from + |line|..]));
    DrainsNext(data, from + |line|);
    NewlineVisible(line);
  }

  /** A clipped or unfinished one. */
  lemma AfterStart(data: string, from: nat, line: string)
    requires from + |line| <= |data| && line == data[from..from + |line|] && 0 < |line| < LINE_BUFFER && !Terminated(line)
    requires |line| == LINE_BUFFER - 1 || from + |line| == |data|
    requires forall i :: 0 <= i < |line| - 1 ==> line[i] != '\n'
    ensures var lines := Lines(data[from..]);
            && lines != [] && Behind(lines) == Drained(data, from + |line|) && '\n' !in CString(line)
            && (|line| == LINE_BUFFER - 1 ==> TooLong(lines[0]))
            && (|line| < LINE_BUFFER - 1 ==> lines == [line] && !TooLong(line) && !Swallows(line))
  {
    hide Lines, CString, Drained;
    TakesStart(data, from, line);
    NewlineVisible(line);
  }

  /** Reads one line, and drains what a clipped one left behind. */
  method ReadLine(input: Stream) returns (line: string, clipped: bool)
    requires input.Valid()
    modifies input
    ensures input.Valid()
    ensures var lines := Lines(input.data[old(input.pos)..]);
            if line == "" then lines == []
            else
              && lines != [] && old(input.pos) < input.pos
              && (clipped <==> TooLong(lines[0]) || Swallows(lines[0]))
              && (!clipped ==> lines[0] == line)
              && Lines(input.data[input.pos..]) == Behind(lines)
  {
    hide Lines, Newline, TooLong, Swallows, Behind, CString;
    ghost var data, from := input.data, input.pos;
    line := input.Gets(LINE_BUFFER);
    NothingLeft(data);
    if line == "" {
      return "", false;
    }
    if Terminated(line) {
      AfterWhole(data, from, line);
    } else {
      AfterStart(data, from, line);
    }
    clipped := '\n' !in CString(line) && !input.eof;
    if clipped {
      input.Drain();
    }
  }

  lemma NothingLeft(data: string)
    ensures Lines(data[|data|..]) == []
  {
  }

  lemma ServeStep(b: Board, n: nat, s: Session, lines: seq<string>, step: Step)
    requires lines != [] && step == Reply(b, n, s, lines[0])
    ensures Serve(b, n, s, lines) ==
            if step.Quit? then []
            else [AnswerText(b.isJson, step.reply)] + Serve(b, n + 1, step.session, Behind(lines))
  {
  }

  /** The session loop: it prints every reply of the session in order, or, when a signal is seen before some
      round, exactly the replies of the rounds before it. */
  method Run(b: Board, input: Stream, signal: Option<nat>) returns (out: string)
    requires b.Valid() && input.Valid() && input.pos == 0 && !input.eof
    modifies input
    ensures var all := Serve(b, 0, START, Lines(input.data));
            out == Join(if signal.Some? && signal.value < |all| then all[..signal.value] else all)
  {
    hide Handle, Swallows, TooLong, AnswerText, Lines, CString, ClippedAnswer, Serve, Behind, START, Join, Plain;
    var s, served := START, 0;
    out := "";
    ghost var all := Serve(b, 0, START, Lines(input.data));
    assert input.data[0..] == input.data;
    assert out == Join(all[..served]) by {
      NoLines(all);
    }
    while true
      invariant input.Valid() && served <= |all| && out == Join(all[..served])
      invariant signal.Some? ==> served <= signal.value
      invariant all[served..] == Serve(b, served, s, Lines(input.data[input.pos..]))
      decreases |input.data| - input.pos
    {
      if signal == Some(served) {
        assert served == |all| ==> all[..served] == all;
        return;
      }
      ghost var lines := Lines(input.data[input.pos..]);
      var line, clipped := ReadLine(input);
      if line == "" {
        ServeNothing(b, served, s);
        assert all[..served] == all;
        return;
      }
      var step := Next(s, ClippedAnswer());
      if !clipped {
        step := Handle(b, served, s, CString(line));
      }
      ServeStep(b, served, s, lines, step);
      if step.Quit? {
        assert all[..served] == all;
        return;
      }
      s := step.session;
      assert all[served..][1..] == all[served + 1..] == Serve(b, served + 1, s, Behind(lines));
      JoinSnoc(all, served);
      out, served := out + AnswerText(b.isJson, step.reply) + "\n", served + 1;
    }
  }

  lemma NoLines(all: seq<string>)
    ensures Join(all[..0]) == ""
  {
  }

  lemma ServeNothing(b: Board, n: nat, s: Session)
    ensures Serve(b, n, s, []) == []
  {
  }
}
