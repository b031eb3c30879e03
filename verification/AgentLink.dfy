/** The host's line-protocol client for the guest agent, talking to the agent of `GuestAgent`.

    The wire delivers the agent's output in any chunks, with or without the startup banner in front; what every
    send and receive comes to is an input script. Unlike the QMP client this one stays open after a timeout, so
    a late reply can be read as the answer to a later request, and a half-sent line runs into the next one.
    When a request is answered, and exactly when by its own reply, is proved below.
 */
module AgentLink {
  import opened CLang
  import opened LineFraming
  import opened GuestAgent

  datatype Outcome = NotConnected | Transport | Ok(reply: string) | Refused(message: string) | Unrecognized(line: string)

  /** How the client sorts the line it takes as the reply. */
  function Sort(line: string): (r: Outcome)
    ensures !r.NotConnected? && !r.Transport?
  {
    if StartsWith(line, "ok") then Ok(line)
    else if StartsWith(line, "err ") then Refused(line[4..])
    else Unrecognized(line)
  }

  /** Point i of the six of a swipe along one axis. */
  function Waypoint(from: int, to: int, i: int): int { from + TruncDiv((to - from) * i, 5) }

  /** The waypoints start and end where asked, never turn back, and never leave the span between. */
  lemma WaypointsMonotone(from: int, to: int, i: int)
    requires 0 <= i < 5
    ensures Waypoint(from, to, 0) == from && Waypoint(from, to, 5) == to
    ensures from <= to ==> from <= Waypoint(from, to, i) <= Waypoint(from, to, i + 1) <= to
    ensures from >= to ==> from >= Waypoint(from, to, i) >= Waypoint(from, to, i + 1) >= to
  {
    assert i == 0 || i == 1 || i == 2 || i == 3 || i == 4;
  }

  /** Point i is i fifths of the way, rounded toward the start. */
  lemma WaypointsSpread(from: int, to: int, i: int)
    requires 0 <= i <= 5
    ensures from <= to ==> 0 <= (to - from) * i - 5 * (Waypoint(from, to, i) - from) < 5
    ensures from >= to ==> 0 <= 5 * (Waypoint(from, to, i) - from) - (to - from) * i < 5
  {
    assert i == 0 || i == 1 || i == 2 || i == 3 || i == 4 || i == 5;
  }

  /** What a whole swipe leaves behind: released at its last point, six touches later. */
  function Swiped(g: Guest, x: int, y: int): Guest {
    g.(held := false, x := x, y := y, touchEvents := g.touchEvents + 6)
  }

  function Touched(g: Guest, x: int, y: int, count: nat): Guest {
    g.(held := true, x := x, y := y, touchEvents := g.touchEvents + count)
  }

  predicate Inside(x1: int, y1: int, x2: int, y2: int, width: int, height: int) {
    0 <= x1 < width && 0 <= x2 < width && 0 <= y1 < height && 0 <= y2 < height
  }

  /** The i-th of a swipe's seven commands. */
  function SwipeCommand(x1: int, y1: int, x2: int, y2: int, i: nat): Command
    requires 0 <= x1 && 0 <= x2 && 0 <= y1 && 0 <= y2
  {
    if i >= 6 then Release
    else
      WaypointsMonotone(x1, x2, if i < 5 then i else 4);
      WaypointsMonotone(y1, y2, if i < 5 then i else 4);
      Touch(Waypoint(x1, x2, i), Waypoint(y1, y2, i))
  }

  lemma SwipeStep(x1: int, y1: int, x2: int, y2: int, width: int, height: int, i: nat)
    requires Inside(x1, y1, x2, y2, width, height) && width <= 4096 && height <= 4096
    ensures SwipeCommand(x1, y1, x2, y2, i).InRange()
    ensures SwipeCommand(x1, y1, x2, y2, i) == if i >= 6 then Release else Touch(Waypoint(x1, x2, i), Waypoint(y1, y2, i))
  {
    if i < 6 {
      WaypointsMonotone(x1, x2, if i < 5 then i else 4);
      WaypointsMonotone(y1, y2, if i < 5 then i else 4);
    }
  }

  /** What the calls of one exchange come to. */
  datatype Exchange = Exchange(sends: seq<Wait>, recvs: seq<Wait>) {
    /** Enough for a command and its bare ok when nothing else is ahead. */
    predicate Carries(c: Command) { Total(sends, false) > |c.Line()| && Total(recvs, false) > 2 }
  }

  /** A trailing carriage return is not part of the line. */
  function ChopReturn(line: string): (r: string)
    ensures NoBreak(line) ==> r == line
  {
    if line != "" && line[|line| - 1] == '\r' then line[..|line| - 1] else line
  }

  /** What a request makes of the lines ahead of it when it gets to see `reach` bytes of them: one banner is
      skipped, the next line is the answer. */
  function Answer(lines: seq<string>, reach: nat): Outcome {
    if lines == [] || |lines[0]| >= reach then Transport
    else if !IsBanner(lines[0]) then Sort(lines[0])
    else if |lines| == 1 || |lines[0]| + 1 + |lines[1]| >= reach then Transport
    else Sort(lines[1])
  }

  /** With nothing but a banner in front, the answer is the reply exactly when all of it is seen. */
  lemma AnsweredInTime(front: seq<string>, reply: string, reach: nat)
    requires front == [] || front == [BANNER]
    requires !IsBanner(reply)
    ensures Answer(front + [reply], reach) == if |Join(front)| + |reply| < reach then Sort(reply) else Transport
  {
    BannerIsOne();
    if front == [] {
      assert front + [reply] == [reply];
    } else {
      JoinOne(BANNER);
      assert front + [reply] == [BANNER, reply];
    }
  }

  lemma BannerIsOne()
    ensures IsBanner(BANNER) && NoBreak(BANNER) && |BANNER| == 16
  {
    assert BANNER[..13] == "esprite-agent" && BANNER[0] == 'e' && "ok"[0] == 'o';
  }

  class AgentLink {
    var connected: bool
    var rxbuf: string
    // The other end: the agent's state when this connection opened, whether its banner is on the wire,
    // every byte sent to it, and how many of its lines were taken.
    const start: Guest
    const banner: bool
    var sent: string
    var taken: nat

    /** Everything the agent writes for the bytes sent so far. */
    function Emitted(): seq<string>
      reads this
    {
      (if banner then [BANNER] else []) + Agent().out
    }

    function Agent(): Reader
      reads this
    {
      Feed(Reader(start, "", []), sent)
    }

    /** The lines ahead of the client. Its buffer holds the first bytes of them. */
    function Unread(): seq<string>
      requires taken <= |Emitted()|
      reads this
    {
      Emitted()[taken..]
    }

    ghost predicate Valid()
      reads this
    {
      Sized(start) && taken <= |Emitted()| && rxbuf <= Join(Unread())
    }

    /** The bytes sent so far are whole lines. */
    ghost predicate AtLineStart()
      reads this
    {
      Agent().line == ""
    }

    /** No reply is owed: everything emitted was taken, but for a banner still in front. */
    ghost predicate Settled()
      reads this
    {
      taken == |Emitted()| || (banner && taken == 0 && |Emitted()| == 1)
    }

    /** Nothing is owed and nothing half sent. */
    ghost predicate Ready()
      reads this
    {
      Settled() && AtLineStart()
    }

    /** How many bytes of the lines ahead some receives will show. */
    function Ahead(recvs: seq<Wait>): nat
      requires taken <= |Emitted()|
      reads this
    {
      Reach(Join(Unread()), |rxbuf|, recvs, false)
    }

    constructor (guest: Guest, hasBanner: bool)
      requires Sized(guest)
      ensures Valid() && AtLineStart() && Settled() && connected && start == guest && banner == hasBanner && sent == "" && rxbuf == ""
      ensures taken == 0 && Agent() == Reader(guest, "", []) && (!hasBanner ==> Unread() == [])
    {
      connected, rxbuf, start, banner, sent, taken := true, "", guest, hasBanner, "", 0;
    }

    lemma EmittedPlain()
      ensures AllPlain(Emitted())
      ensures IsBanner(BANNER)
      ensures forall i :: (if banner then 1 else 0) <= i < |Emitted()| ==> !IsBanner(Emitted()[i])
      ensures forall i :: 0 <= i < |Emitted()| ==> NoBreak(Emitted()[i])
      ensures Short(Agent()) && Sized(start) ==> Sized(Agent().guest)
      ensures Short(Agent())
    {
      hide Feed, IsBanner;
      AllProper(Reader(start, "", []), sent);
      FeedKeepsShort(Reader(start, "", []), sent);
      BannerIsOne();
      if Sized(start) {
        FeedKeepsSize(Reader(start, "", []), sent);
      }
    }

    /** One poll and recv that brought something: bytes the agent wrote arrive, in order. */
    method Receive(n: nat)
      requires Valid() && n > 0 && |rxbuf| < |Join(Unread())|
      modifies this`rxbuf
      ensures Valid() && |rxbuf| == old(|rxbuf|) + Min(n, |Join(Unread())| - old(|rxbuf|))
    {
      rxbuf := Join(Unread())[..|rxbuf| + Min(n, |Join(Unread())| - |rxbuf|)];
    }

    /** The next line, exactly when the receives show it through its newline; `rest` is the calls not yet made. */
    method ReadLine(recvs: seq<Wait>) returns (ok: bool, line: string, rest: seq<Wait>)
      requires Valid()
      modifies this`rxbuf, this`taken
      ensures Valid()
      ensures ok <==> old(Unread()) != [] && |old(Unread())[0]| < old(Ahead(recvs))
      ensures ok ==> line == old(Unread())[0] && taken == old(taken) + 1 && Unread() == old(Unread())[1..]
      ensures ok ==> Ahead(rest) == old(Ahead(recvs)) - |line| - 1
      ensures !ok ==> taken == old(taken)
    {
      hide Join, Newline, Feed, Short, IsBanner, ChopReturn;
      rest := recvs;
      EmittedPlain();
      ghost var lines, text := Unread(), Join(Unread());
      while true
        invariant Valid() && taken == old(taken) && Unread() == lines
        invariant Ahead(rest) == old(Ahead(recvs))
        decreases rest
      {
        FirstLineWithin(lines, |rxbuf|);
        assert text[..|rxbuf|] == rxbuf;
        var nl := Newline(rxbuf, 0);
        if nl >= 0 {
          ReachBehind(lines, |rxbuf|, rest, false);
          line := rxbuf[..nl];
          rxbuf, taken := rxbuf[nl + 1..], taken + 1;
          assert Unread() == lines[1..];
          line := ChopReturn(line);
          return true, line, rest;
        }
        if rest == [] || !rest[0].Moved? || rest[0].n == 0 || |rxbuf| == |Join(Unread())| {
          assert Ahead(rest) == |rxbuf|;
          return false, "", rest;
        }
        ReachKept(text, |rxbuf|, rest, false);
        Receive(rest[0].n);
        rest := rest[1..];
      }
    }

    /** Sends a line and its newline: whole exactly when the sends take that many bytes before one fails. What
        they took of it otherwise stays with the agent. */
    method Send(line: string, sends: seq<Wait>) returns (ok: bool)
      requires Valid()
      modifies this`sent
      ensures Valid() && old(Emitted()) <= Emitted()
      ensures ok <==> Total(sends, false) > |line|
      ensures sent == old(sent) + if ok then line + "\n" else (line + "\n")[..Total(sends, false)]
    {
      hide Join, Feed;
      var out := line + "\n";
      var off, rest := 0, sends;
      while off < |out|
        invariant 0 <= off <= |out| && sent == old(sent) + out[..off]
        invariant Min(|out|, Total(sends, false)) == Min(|out|, off + Total(rest, false))
        decreases rest
      {
        if rest == [] || !rest[0].Moved? || rest[0].n == 0 {
          StillValid(out[..off]);
          return false;
        }
        var n := Min(rest[0].n, |out| - off);
        sent := sent + out[off..off + n];
        assert out[..off + n] == out[..off] + out[off..off + n];
        off, rest := off + n, rest[1..];
      }
      StillValid(out);
      ok := true;
    }

    /** Lines already emitted and taken stay so. */
    twostate lemma StillValid(more: string)
      requires old(Valid()) && sent == old(sent) + more && taken == old(taken) && rxbuf == old(rxbuf)
      ensures Valid() && old(Emitted()) <= Emitted()
    {
      hide Feed, Join;
      FeedAppend(Reader(start, "", []), old(sent), more);
      FeedGrows(old(Agent()), more);
      var a, b := old(Emitted()), Emitted();
      assert b == a + b[|a|..];
      assert Unread() == old(Unread()) + b[|a|..];
      JoinAppend(old(Unread()), b[|a|..]);
    }

    /** The line taken for the reply: the next one, or the one behind a banner. */
    method TakeReply(recvs: seq<Wait>) returns (o: Outcome)
      requires Valid()
      modifies this`rxbuf, this`taken
      ensures Valid() && o == old(Answer(Unread(), Ahead(recvs)))
      ensures !o.Transport? ==> taken == old(taken) + if IsBanner(old(Unread())[0]) then 2 else 1
      ensures o.Transport? ==> taken == old(taken) || (taken == old(taken) + 1 && IsBanner(old(Unread())[0]))
      ensures !o.NotConnected? && (taken == |Emitted()| ==> rxbuf == "")
    {
      hide Feed, IsBanner, Sort, Reach;
      NothingAhead();
      var ok, got, rest := ReadLine(recvs);
      NothingAhead();
      if !ok {
        return Transport;
      }
      if IsBanner(got) {
        ok, got, rest := ReadLine(rest);
        NothingAhead();
        if !ok {
          return Transport;
        }
      }
      o := Sort(got);
    }

    lemma NothingAhead()
      requires Valid()
      ensures taken == |Emitted()| ==> rxbuf == ""
    {
    }

    /** The lines a request sent now would put ahead of the client. */
    function Coming(line: string): seq<string>
      requires taken <= |Emitted()|
      reads this
    {
      Unread() + Drawn(Agent(), line)
    }

    /** One request. It is answered exactly when the line goes out whole and the receives show the next line not
        yet taken, banner skipped. That is the reply it drew exactly when nothing was owed before; and the agent
        acts on this very line exactly when it was also at a line start. */
    method Request(line: string, sends: seq<Wait>, recvs: seq<Wait>) returns (o: Outcome)
      requires Valid() && NoBreak(line) && 1 <= |line| < LINE_SIZE
      modifies this`sent, this`rxbuf, this`taken
      ensures Valid() && (o == NotConnected <==> !connected)
      ensures !connected ==> sent == old(sent) && taken == old(taken) && rxbuf == old(rxbuf)
      ensures o == Transport ==> taken == old(taken) || (banner && old(taken) == 0 && taken == 1)
      ensures connected && Total(sends, false) <= |line| ==>
                o == Transport && taken == old(taken) && sent == old(sent) + (line + "\n")[..Total(sends, false)]
      ensures connected && Total(sends, false) > |line| ==>
                && sent == old(sent) + line + "\n" && AtLineStart()
                && Emitted() == old(Emitted()) + old(Drawn(Agent(), line))
                && o == Answer(old(Coming(line)), Reach(Join(old(Coming(line))), |old(rxbuf)|, recvs, false))
      ensures connected && Total(sends, false) > |line| && |old(Agent()).line| + |line| < LINE_SIZE ==>
                var h := HandleLine(old(Agent()).guest, old(Agent()).line + line);
                old(Drawn(Agent(), line)) == [h.reply] && Agent().guest == h.guest
      ensures o.Ok? || o.Refused? || o.Unrecognized? ==>
                && (taken == |Emitted()| <==> old(Settled()) && |old(Agent()).line| + |line| <= LINE_SIZE)
                && (taken == |Emitted()| && old(Agent()).line + line == line <==> old(Settled()) && old(AtLineStart()))
                && (taken == |Emitted()| ==> rxbuf == "")
      ensures connected && o == Transport && Total(sends, false) > |line| && old(Settled()) ==> !Settled()
    {
      hide Feed, HandleLine, IsBanner, Sort, Join, Short, NoBreak, Reach, Answer;
      if !connected {
        return NotConnected;
      }
      EmittedPlain();
      ghost var before, drawn := Unread(), Drawn(Agent(), line);
      var sentAll := Send(line, sends);
      if !sentAll {
        return Transport;
      }
      Drew(line);
      EmittedPlain();
      assert Unread() == before + drawn;
      o := TakeReply(recvs);
    }

    /** What the whole line drew. */
    twostate lemma Drew(line: string)
      requires sent == old(sent) + line + "\n" && Short(old(Agent()))
      requires NoBreak(line) && 1 <= |line| < LINE_SIZE
      ensures AtLineStart() && Emitted() == old(Emitted()) + old(Drawn(Agent(), line))
      ensures |old(Drawn(Agent(), line))| == if |old(Agent()).line| + |line| <= LINE_SIZE then 1 else 2
      ensures |old(Agent()).line| + |line| < LINE_SIZE ==>
                var h := HandleLine(old(Agent()).guest, old(Agent()).line + line);
                old(Drawn(Agent(), line)) == [h.reply] && Agent().guest == h.guest
    {
      hide Feed, HandleLine, Short, NoBreak;
      assert sent == old(sent) + (line + "\n");
      FeedAppend(Reader(start, "", []), old(sent), line + "\n");
      DrawnReplies(old(Agent()), line);
    }

    /** Whether an exchange brings a line out and the receives bring all that is ahead and a reply of n bytes. */
    predicate Arrives(line: string, n: nat, sends: seq<Wait>, recvs: seq<Wait>)
      requires taken <= |Emitted()|
      reads this
    {
      Total(sends, false) > |line| && |rxbuf| + Total(recvs, false) > |Join(Unread())| + n
    }

    /** On a settled link at a line start, only a banner can stand in front of the reply. */
    lemma OnlyBannerAhead()
      requires Valid() && Settled()
      ensures Unread() == [] || Unread() == [BANNER]
    {
      hide Feed;
    }

    /** A command that passes the host's checks, on a settled link at a line start: it is answered, by its own ok,
        exactly when the exchange arrives, and then the guest is left as the command means. */
    method Inject(c: Command, sends: seq<Wait>, recvs: seq<Wait>) returns (o: Outcome)
      requires Valid() && c.InRange()
      modifies this`sent, this`rxbuf, this`taken
      ensures Valid() && (o == NotConnected <==> !connected) && Sized(Agent().guest) && Sized(old(Agent()).guest)
      ensures !connected ==> sent == old(sent)
      ensures connected && old(Ready()) ==>
                o == if old(Arrives(c.Line(), |c.Meaning(Agent().guest).reply|, sends, recvs))
                     then Ok(c.Meaning(old(Agent()).guest).reply) else Transport
      ensures connected && old(Ready()) && Total(sends, false) > |c.Line()| ==>
                && AtLineStart() && Emitted() == old(Emitted()) + [c.Meaning(old(Agent()).guest).reply]
                && Agent().guest == c.Meaning(old(Agent()).guest).guest
      ensures o == Transport ==> taken == old(taken) || (banner && old(taken) == 0 && taken == 1)
      ensures old(Ready()) && o.Ok? ==>
                && Ready() && taken == |Emitted()| && rxbuf == ""
                && Agent().guest == c.Meaning(old(Agent()).guest).guest
    {
      hide Feed, HandleLine, Command.Line, IsBanner, Join, NoBreak, Short;
      EmittedPlain();
      CommandUnderstood(Agent().guest, c);
      ghost var settled, front, reply := Ready(), Unread(), c.Meaning(Agent().guest).reply;
      ghost var coming := Coming(c.Line());
      if settled {
        assert Agent().line + c.Line() == c.Line();
        OnlyBannerAhead();
        OwnReply(front, reply, |rxbuf|, recvs);
      }
      o := Request(c.Line(), sends, recvs);
      assert settled && connected && Total(sends, false) > |c.Line()| ==> coming == front + [reply];
      EmittedPlain();
    }

    /** The reply of a command behind at most a banner. */
    lemma OwnReply(front: seq<string>, reply: string, have: nat, recvs: seq<Wait>)
      requires front == [] || front == [BANNER]
      requires reply == "ok" || reply == "ok esprite-agent v1"
      ensures Answer(front + [reply], Reach(Join(front + [reply]), have, recvs, false)) ==
              if have + Total(recvs, false) > |Join(front)| + |reply| then Ok(reply) else Transport
    {
      hide Join, IsBanner;
      OkReplies();
      JoinAppend(front, [reply]);
      JoinOne(reply);
      AnsweredInTime(front, reply, Reach(Join(front + [reply]), have, recvs, false));
    }

    /** The agent half of apply_tap. */
    method Tap(x: int, y: int, width: int, height: int, sends: seq<Wait>, recvs: seq<Wait>) returns (ok: bool)
      requires Valid() && width <= 4096 && height <= 4096
      modifies this`sent, this`rxbuf, this`taken
      ensures Valid() && Sized(Agent().guest) && Sized(old(Agent()).guest)
      ensures !(0 <= x < width && 0 <= y < height) ==> !ok && sent == old(sent)
      ensures old(Ready()) && 0 <= x < width && 0 <= y < height ==>
                (ok <==> connected && old(Arrives(GuestAgent.Tap(x, y, 120).Line(), 2, sends, recvs)))
      ensures old(Ready()) && ok ==>
                Ready() && var g := old(Agent()).guest; Agent().guest == g.(held := false, x := x, y := y, touchEvents := g.touchEvents + 1)
    {
      hide Feed, Command.Line, Join, Total;
      EmittedPlain();
      if x < 0 || y < 0 || x >= width || y >= height {
        return false;
      }
      var o := Inject(GuestAgent.Tap(x, y, 120), sends, recvs);
      EmittedPlain();
      ok := o.Ok?;
    }

    /** The agent half of apply_gpio. */
    method SetPin(pin: int, level: int, sends: seq<Wait>, recvs: seq<Wait>) returns (ok: bool)
      requires Valid()
      modifies this`sent, this`rxbuf, this`taken
      ensures Valid() && Sized(Agent().guest) && Sized(old(Agent()).guest)
      ensures !(0 <= pin <= MAX_PIN && 0 <= level <= 1) ==> !ok && sent == old(sent)
      ensures old(Ready()) && 0 <= pin <= MAX_PIN && 0 <= level <= 1 ==>
                (ok <==> connected && old(Arrives(Gpio(pin, level).Line(), 2, sends, recvs)))
      ensures old(Ready()) && ok ==> Ready() && Agent().guest.level == old(Agent()).guest.level[pin := level]
    {
      hide Feed, Command.Line, Join, Total;
      EmittedPlain();
      if pin < 0 || pin > 63 || (level != 0 && level != 1) {
        return false;
      }
      var o := Inject(Gpio(pin, level), sends, recvs);
      EmittedPlain();
      ok := o.Ok?;
    }

    /** The agent half of apply_swipe: six touches along the waypoints, then a release, an exchange each. It goes
        through exactly when every exchange arrives. */
    method Swipe(x1: int, y1: int, x2: int, y2: int, width: int, height: int, turns: seq<Exchange>) returns (ok: bool)
      requires Valid() && width <= 4096 && height <= 4096 && |turns| == 7
      modifies this`sent, this`rxbuf, this`taken
      ensures Valid() && Sized(Agent().guest) && Sized(old(Agent()).guest)
      ensures !Inside(x1, y1, x2, y2, width, height) ==> !ok && sent == old(sent)
      ensures old(Ready()) && Inside(x1, y1, x2, y2, width, height) ==>
                (ok <==> && connected && old(Arrives(SwipeCommand(x1, y1, x2, y2, 0).Line(), 2, turns[0].sends, turns[0].recvs))
                         && forall i :: 1 <= i < 7 ==> turns[i].Carries(SwipeCommand(x1, y1, x2, y2, i)))
      ensures old(Ready()) && ok ==> Ready() && Agent().guest == Swiped(old(Agent()).guest, x2, y2)
    {
      hide Feed, Command.Line, Emitted, Join, Total, SwipeCommand, Waypoint, Short, Sized;
      EmittedPlain();
      ghost var before := Agent().guest;
      if !Inside(x1, y1, x2, y2, width, height) {
        return false;
      }
      var i := 0;
      while i <= 5
        invariant 0 <= i <= 6 && Valid() && Sized(Agent().guest)
        invariant i == 0 ==> Agent().guest == before && taken == old(taken) && rxbuf == old(rxbuf) && sent == old(sent)
        invariant old(Ready()) ==> Ready() && (i > 0 ==> connected && taken == |Emitted()| && rxbuf == "")
        invariant old(Ready()) && i > 0 ==> Agent().guest == Touched(before, Waypoint(x1, x2, i - 1), Waypoint(y1, y2, i - 1), i)
        invariant old(Ready()) && i > 0 ==> old(Arrives(SwipeCommand(x1, y1, x2, y2, 0).Line(), 2, turns[0].sends, turns[0].recvs))
        invariant old(Ready()) ==> forall k :: 1 <= k < i ==> turns[k].Carries(SwipeCommand(x1, y1, x2, y2, k))
      {
        var c := SwipeCommand(x1, y1, x2, y2, i);
        SwipeStep(x1, y1, x2, y2, width, height, i);
        NothingUnread();
        var o := Inject(c, turns[i].sends, turns[i].recvs);
        EmittedPlain();
        if !o.Ok? {
          return false;
        }
        i := i + 1;
      }
      SwipeStep(x1, y1, x2, y2, width, height, 6);
      NothingUnread();
      WaypointsMonotone(x1, x2, 4);
      WaypointsMonotone(y1, y2, 4);
      var o := Inject(SwipeCommand(x1, y1, x2, y2, 6), turns[6].sends, turns[6].recvs);
      EmittedPlain();
      ok := o.Ok?;
    }

    /** A command that is sent whole and times out: its reply stays ahead on the open link. */
    method TimesOut(c: Command) returns (o: Outcome)
      requires Valid() && connected && AtLineStart() && Unread() == [] && c.InRange()
      modifies this`sent, this`rxbuf, this`taken
      ensures Valid() && AtLineStart() && Sized(old(Agent()).guest)
      ensures o == Transport && Unread() == [c.Meaning(old(Agent()).guest).reply]
    {
      hide Feed, HandleLine, Command.Line, Join, IsBanner, Total, Command.Meaning;
      EmittedPlain();
      Scripts(c.Line());
      assert Settled();
      NothingUnread();
      o := Inject(c, [Moved(|c.Line()| + 1)], [Failed]);
    }

    /** A send that fails after k bytes: they stay in the agent's buffer, and nothing is owed. */
    method LeavesHalf(line: string, k: nat) returns (o: Outcome)
      requires Valid() && connected && AtLineStart() && Unread() == []
      requires NoBreak(line) && 0 < k <= |line| < LINE_SIZE
      modifies this`sent, this`rxbuf, this`taken
      ensures Valid() && o == Transport && Unread() == []
      ensures Agent() == old(Agent()).(line := line[..k])
    {
      hide Feed, HandleLine, Join, IsBanner, Drawn, Answer, Short;
      Scripts(line[..k]);
      o := Request(line, [Moved(k), Failed], []);
      assert (line + "\n")[..k] == line[..k];
      assert NoBreak(line[..k]);
      FeedAppend(Reader(start, "", []), old(sent), line[..k]);
      LineFills(old(Agent()).guest, old(Agent()).out, line[..k]);
      assert line[..k][0..] == line[..k];
    }

    /** The next line behind what a failed send left: one reply, to both together. */
    method RunsOn(next: string) returns (o: Outcome)
      requires Valid() && connected && Unread() == []
      requires NoBreak(next) && 1 <= |next| && |Agent().line| + |next| < LINE_SIZE
      modifies this`sent, this`rxbuf, this`taken
      ensures Valid() && o == Sort(HandleLine(old(Agent()).guest, old(Agent()).line + next).reply)
    {
      hide Feed, HandleLine, Sort, Drawn, Join, IsBanner, NoBreak, Reach, Total, Answer, Short;
      EmittedPlain();
      Scripts(next);
      ghost var reply := HandleLine(Agent().guest, Agent().line + next).reply;
      HandledReply(Agent().guest, Agent().line + next);
      ghost var coming, have := Coming(next), |rxbuf|;
      o := Request(next, [Moved(|next| + 1)], [Moved(64)]);
      assert coming == [reply];
      LoneAnswer(reply, have);
    }

    /** With another command's reply still ahead, a request is given it. */
    method GetsLate(c: Command, late: string) returns (o: Outcome)
      requires Valid() && connected && c.InRange() && AtLineStart()
      requires Unread() == [late] && (late == "ok" || late == "ok esprite-agent v1")
      modifies this`sent, this`rxbuf, this`taken
      ensures Valid() && o == Ok(late)
    {
      hide Feed, HandleLine, Sort, Drawn, Command.Line, Join, IsBanner, NoBreak, Reach, Total, Answer, Short;
      EmittedPlain();
      CommandUnderstood(Agent().guest, c);
      Scripts(c.Line());
      ghost var coming, have := Coming(c.Line()), |rxbuf|;
      o := Request(c.Line(), [Moved(|c.Line()| + 1)], [Moved(64)]);
      FirstAnswers(late, coming, have);
    }

    lemma NothingUnread()
      requires Valid()
      ensures taken == |Emitted()| ==> |Join(Unread())| == 0
    {
    }
  }

  /** How a late reply is misread, for any two commands: the first times out after it was sent, and the second is
      given the first one's reply. After a ping that is not its own. */
  method LateReplyIsMisread(g: Guest, c1: Command, c2: Command) returns (first: Outcome, second: Outcome)
    requires Sized(g) && c1.InRange() && c2.InRange()
    ensures first == Transport && second == Ok(c1.Meaning(g).reply)
    ensures c1.Ping? && !c2.Ping? ==> second != Ok(c2.Meaning(g).reply)
  {
    hide Feed, Command.Line, Join, Command.Meaning, AgentLink.Emitted;
    var link := new AgentLink(g, false);
    first := link.TimesOut(c1);
    OneOfTwo(g, c1);
    OneOfTwo(g, c2);
    second := link.GetsLate(c2, c1.Meaning(g).reply);
  }

  lemma OneOfTwo(g: Guest, c: Command)
    requires c.InRange() && Sized(g)
    ensures c.Meaning(g).reply == if c.Ping? then "ok esprite-agent v1" else "ok"
  {
  }

  lemma Scripts(line: string)
    ensures line != "" ==> Total([Moved(|line|), Failed], false) == |line|
    ensures Total([Moved(|line| + 1)], false) == |line| + 1 && Total([Failed], false) == 0 && Total([Moved(64)], false) == 64
  {
    assert Total([], false) == 0;
  }

  lemma LoneAnswer(reply: string, have: nat)
    requires exists k :: 0 <= k < 8 && reply == REPLIES[k]
    ensures Answer([reply], Reach(Join([reply]), have, [Moved(64)], false)) == Sort(reply)
  {
    var k :| 0 <= k < 8 && reply == REPLIES[k];
    KnownReply(k);
    JoinOne(reply);
    Scripts(reply);
    RepliesAreShort(k);
  }

  lemma RepliesAreShort(k: nat)
    requires k < 8
    ensures |REPLIES[k]| < 64
  {
  }

  lemma FirstAnswers(reply: string, lines: seq<string>, have: nat)
    requires reply == "ok" || reply == "ok esprite-agent v1"
    requires lines != [] && lines[0] == reply
    ensures Answer(lines, Reach(Join(lines), have, [Moved(64)], false)) == Ok(reply)
  {
    hide IsBanner;
    OkReplies();
    Scripts("");
    assert |Join(lines)| > |reply|;
  }

  /** How a half-sent line runs on: a send that fails after k bytes leaves them with the agent, and the next line
      is handled behind them. One byte of a ping makes the next ping unknown. */
  method HalfSentRunsOn(g: Guest, line: string, k: nat, next: string) returns (first: Outcome, second: Outcome)
    requires Sized(g) && NoBreak(line) && NoBreak(next) && 0 < k <= |line| < LINE_SIZE && 1 <= |next| && k + |next| < LINE_SIZE
    ensures first == Transport && second == Sort(HandleLine(g, line[..k] + next).reply)
    ensures line[..k] + next == "pping" ==> second == Refused("unknown command")
  {
    hide Feed, HandleLine, Sort, Join, NoBreak, AgentLink.Emitted;
    var link := new AgentLink(g, false);
    first := link.LeavesHalf(line, k);
    second := link.RunsOn(next);
    PpingIsUnknown(g);
  }

  lemma PpingIsUnknown(g: Guest)
    ensures Sort(HandleLine(g, "pping").reply) == Refused("unknown command")
  {
    SpacedReads("pping", []);
    assert Err("unknown command")[..4] == "err " && Err("unknown command")[4..] == "unknown command";
    assert Err("unknown command")[0] == 'e';
  }
}
