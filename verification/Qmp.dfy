/** The QMP client: newline-framed request/reply with asynchronous events, over a byte stream with any
    chunking, timeouts, partial writes and a peer that may go away.

    What every send and receive comes to is an input script, so when a call succeeds is stated as well as what
    it then returns. The server is a function from the number of a command to what it emits for it. JSON is
    abstracted to three functions: what a parsed line holds, whether a greeting is one, and how a command is
    printed.
 */
module Qmp {
  import opened Pixels
  import opened LineFraming

  /** What the client makes of one line: events are skipped, replies carry the serialized return value or
      the error's description, and anything else is unusable. */
  datatype Message = Event | Reply(ok: bool, text: string) | Unusable

  /** What a parsed line holds: whether it is an event, an error's description, and a serialized return value. */
  datatype Doc = Doc(event: bool, error: Option<string>, result: Option<string>)

  datatype Codec = Codec(parse: string -> Option<Doc>, isGreeting: string -> bool,
                         encode: (string, string) -> Option<string>) {
    /** An event is one whatever else it holds, and an error before a return value. */
    function Classify(line: string): Message {
      match parse(line)
      case None => Unusable
      case Some(doc) =>
        if doc.event then Event
        else if doc.error.Some? then Reply(false, doc.error.value)
        else if doc.result.Some? then Reply(true, doc.result.value)
        else Unusable
    }

    /** The line returns the value t. */
    predicate Returns(line: string, t: string) { line != "" && parse(line) == Some(Doc(false, None, Some(t))) }

    /** The line refuses with the description d. */
    predicate Refuses(line: string, d: string) {
      line != "" && parse(line).Some? && !parse(line).value.event && parse(line).value.error == Some(d)
    }

    /** Lines that are blank or events. */
    predicate Quiet(lines: seq<string>) {
      forall i :: 0 <= i < |lines| ==> lines[i] == "" || (parse(lines[i]).Some? && parse(lines[i]).value.event)
    }

    /** A serialized command is one line. */
    ghost predicate Valid() {
      forall c, a :: encode(c, a).Some? ==> Plain(encode(c, a).value)
    }

    /** Lines none of which is a reply. */
    ghost predicate Others(lines: seq<string>) {
      forall i :: 0 <= i < |lines| ==> Plain(lines[i]) && !Classify(lines[i]).Reply?
    }

    /** Lines the client skips: events and blanks. */
    predicate Skipped(lines: seq<string>) {
      forall i :: 0 <= i < |lines| ==> lines[i] == "" || Classify(lines[i]).Event?
    }
  }

  /** What the server emits for one command: other lines, the reply, and other lines again. */
  datatype Turn = Turn(before: seq<string>, reply: string, after: seq<string>) {
    function Lines(): seq<string> { before + [reply] + after }
  }

  /** The protocol's promise: a greeting, then one reply per command in command order, events anywhere. */
  datatype Server = Server(greeting: string, hello: seq<string>, turn: nat -> Turn) {
    ghost predicate Valid(codec: Codec) {
      && Plain(greeting) && codec.Others(hello)
      && forall k :: codec.Others(turn(k).before) && Plain(turn(k).reply) && codec.Others(turn(k).after)
    }

    /** Everything emitted once n commands were read. */
    function Log(n: nat): seq<string> {
      if n == 0 then [greeting] + hello else Log(n - 1) + turn(n - 1).Lines()
    }
  }

  lemma {:induction false} LogIsPlain(codec: Codec, server: Server, n: nat)
    requires server.Valid(codec)
    ensures AllPlain(server.Log(n))
  {
    if n > 0 {
      LogIsPlain(codec, server, n - 1);
      assert codec.Others(server.turn(n - 1).before) && codec.Others(server.turn(n - 1).after);
    }
  }

  datatype Outcome = NotConnected | BadArguments | TransportError | AppError(desc: string) | Result(value: string)

  function Meaning(m: Message): Outcome {
    match m
    case Reply(ok, text) => if ok then Result(text) else AppError(text)
    case _ => TransportError
  }

  /** What a client makes of the lines ahead of it when it gets to see `reach` bytes of them. */
  function FirstReply(codec: Codec, lines: seq<string>, reach: nat): Outcome {
    if lines == [] || |lines[0]| >= reach then TransportError
    else if lines[0] == "" || codec.Classify(lines[0]).Event? then FirstReply(codec, lines[1..], reach - |lines[0]| - 1)
    else Meaning(codec.Classify(lines[0]))
  }

  /** The pairing argument: behind lines that are no replies, the first reply is the command's own. */
  lemma {:induction false} NextReplyIsOwn(codec: Codec, others: seq<string>, reply: string, rest: seq<string>, reach: nat)
    requires codec.Others(others) && codec.Others(rest)
    ensures var o := FirstReply(codec, others + [reply] + rest, reach);
            o.Result? || o.AppError? ==> codec.Classify(reply).Reply? && o == Meaning(codec.Classify(reply))
    decreases |others|
  {
    var lines := others + [reply] + rest;
    if others == [] {
      assert lines[0] == reply && lines[1..] == rest;
      NoReply(codec, rest, if |reply| < reach then reach - |reply| - 1 else 0);
    } else {
      assert lines[0] == others[0] && lines[1..] == others[1..] + [reply] + rest;
      if |others[0]| < reach {
        NextReplyIsOwn(codec, others[1..], reply, rest, reach - |others[0]| - 1);
      }
    }
  }

  lemma {:induction false} NoReply(codec: Codec, lines: seq<string>, reach: nat)
    requires codec.Others(lines)
    ensures FirstReply(codec, lines, reach) == TransportError
    decreases |lines|
  {
    if lines != [] && |lines[0]| < reach {
      assert !codec.Classify(lines[0]).Reply?;
      NoReply(codec, lines[1..], reach - |lines[0]| - 1);
    }
  }

  /** The other half: behind events and blanks a reply is returned exactly when the client gets to see it
      through its newline. */
  lemma {:induction false} ReplyInTime(codec: Codec, skipped: seq<string>, reply: string, rest: seq<string>, reach: nat)
    requires codec.Skipped(skipped) && reply != "" && codec.Classify(reply).Reply?
    ensures var o := FirstReply(codec, skipped + [reply] + rest, reach);
            o == if |Join(skipped + [reply])| <= reach then Meaning(codec.Classify(reply)) else TransportError
    decreases |skipped|
  {
    var lines := skipped + [reply] + rest;
    if skipped == [] {
      assert lines[0] == reply;
      JoinOne(reply);
      assert skipped + [reply] == [reply];
    } else {
      assert lines[0] == skipped[0] && lines[1..] == skipped[1..] + [reply] + rest;
      assert (skipped + [reply])[1..] == skipped[1..] + [reply];
      if |skipped[0]| < reach {
        ReplyInTime(codec, skipped[1..], reply, rest, reach - |skipped[0]| - 1);
      }
    }
  }

  /** Seeing more of the lines never changes an answer. */
  lemma {:induction false} SeeingMore(codec: Codec, lines: seq<string>, reach: nat, more: nat)
    requires reach <= more && FirstReply(codec, lines, reach) != TransportError
    ensures FirstReply(codec, lines, more) == FirstReply(codec, lines, reach)
    decreases |lines|
  {
    if lines != [] && |lines[0]| < reach && (lines[0] == "" || codec.Classify(lines[0]).Event?) {
      SeeingMore(codec, lines[1..], reach - |lines[0]| - 1, more - |lines[0]| - 1);
    }
  }

  /** In the reply's own terms: behind blanks and events, a line that returns t in time is the result t, one that
      refuses with d the error d. */
  lemma AnswerInTime(codec: Codec, quiet: seq<string>, reply: string, rest: seq<string>, reach: nat)
    requires codec.Quiet(quiet) && |Join(quiet + [reply])| <= reach
    ensures var o := FirstReply(codec, quiet + [reply] + rest, reach);
            && (forall t :: codec.Returns(reply, t) ==> o == Result(t))
            && (forall d :: codec.Refuses(reply, d) ==> o == AppError(d))
  {
    assert codec.Skipped(quiet);
    if reply != "" && codec.Classify(reply).Reply? {
      ReplyInTime(codec, quiet, reply, rest, reach);
    }
  }

  lemma AnswerSays(codec: Codec, line: string)
    requires line != ""
    ensures var o := Meaning(codec.Classify(line));
            && (forall t :: o == Result(t) <==> codec.Returns(line, t))
            && (forall d :: o == AppError(d) <==> codec.Refuses(line, d))
  {
  }

  lemma ReplyWithinReach(codec: Codec, quiet: seq<string>, reply: string, rest: seq<string>, have: nat, recvs: seq<Wait>)
    requires codec.Quiet(quiet) && |Join(quiet + [reply])| <= have + Total(recvs, true)
    ensures var lines := quiet + [reply] + rest;
            |Join(quiet + [reply])| <= Reach(Join(lines), have, recvs, true)
  {
    JoinAppend(quiet + [reply], rest);
  }

  /** The greeting comes, the capabilities command goes out, and its return value comes after it, behind nothing but
      blanks and events. */
  ghost predicate Welcomes(codec: Codec, server: Server, first: seq<Wait>, sends: seq<Wait>, recvs: seq<Wait>) {
    var turn := server.turn(0);
    && Total(first, true) > |server.greeting| && codec.isGreeting(server.greeting)
    && Total(sends, true) > |CAPABILITIES|
    && codec.Quiet(server.hello + turn.before) && (exists t :: codec.Returns(turn.reply, t))
    && |Join(server.hello + turn.before + [turn.reply])| <= Total(recvs, true)
  }

  const CAPABILITIES := "{\"execute\":\"qmp_capabilities\"}"

  class QmpClient {
    const codec: Codec
    var connected: bool
    var rxbuf: string
    // This connection's server side: the server, the complete commands it has read, the bytes of an incomplete
    // one, and how many of its lines were taken.
    var server: Server
    var commands: seq<string>
    var partial: string
    var taken: nat

    ghost predicate Valid()
      reads this
    {
      && codec.Valid()
      && (!connected ==> rxbuf == "")
      && (connected ==> Synced())
    }

    /** What the server emitted on this connection. */
    function Emitted(): seq<string>
      reads this
    {
      server.Log(|commands|)
    }

    /** The lines ahead of the client. Its buffer holds the first bytes of them. */
    function Unread(): seq<string>
      requires taken <= |Emitted()|
      reads this
    {
      Emitted()[taken..]
    }

    ghost predicate Synced()
      reads this
    {
      server.Valid(codec) && taken <= |Emitted()| && rxbuf <= Join(Unread())
    }

    /** Every command sent on this connection has had its reply taken, and no line boundary is owed. */
    ghost predicate Idle()
      reads this
    {
      connected ==> partial == "" && taken <= |Emitted()| && codec.Others(Unread())
    }

    /** How many bytes of the lines ahead some receives will show. */
    function Ahead(recvs: seq<Wait>): nat
      requires taken <= |Emitted()|
      reads this
    {
      Reach(Join(Unread()), |rxbuf|, recvs, true)
    }

    constructor (c: Codec)
      requires c.Valid()
      ensures Valid() && Idle() && codec == c && !connected
    {
      codec, connected, rxbuf := c, false, "";
      server, commands, partial, taken := Server("", [], _ => Turn([], "", [])), [], "", 0;
    }

    method Close()
      modifies this`connected, this`rxbuf
      ensures !connected && rxbuf == ""
    {
      connected, rxbuf := false, "";
    }

    /** One receive: bytes the server emitted arrive, in order. */
    method Receive(n: nat)
      requires Valid() && connected && n > 0 && |rxbuf| < |Join(Unread())|
      modifies this`rxbuf
      ensures Valid() && |rxbuf| == old(|rxbuf|) + Min(n, |Join(Unread())| - old(|rxbuf|))
    {
      rxbuf := Join(Unread())[..|rxbuf| + Min(n, |Join(Unread())| - |rxbuf|)];
    }

    /** The next line, exactly when the receives show it through its newline; `rest` is the calls not yet made. */
    method ReadLine(recvs: seq<Wait>) returns (ok: bool, line: string, rest: seq<Wait>)
      requires Valid() && connected
      modifies this`rxbuf, this`taken
      ensures Valid()
      ensures ok <==> old(Unread()) != [] && |old(Unread())[0]| < old(Ahead(recvs))
      ensures ok ==> line == old(Unread())[0] && taken == old(taken) + 1 && Unread() == old(Unread())[1..]
      ensures ok ==> Ahead(rest) == old(Ahead(recvs)) - |line| - 1
      ensures !ok ==> taken == old(taken)
    {
      hide Join, Newline, Server.Log;
      rest := recvs;
      LogIsPlain(codec, server, |commands|);
      ghost var lines, text := Unread(), Join(Unread());
      while true
        invariant Valid() && taken == old(taken) && Unread() == lines
        invariant Ahead(rest) == old(Ahead(recvs))
        decreases rest
      {
        FirstLineWithin(lines, |rxbuf|);
        assert text[..|rxbuf|] == rxbuf;
        var nl := Newline(rxbuf, 0);
        if nl >= 0 {
          ReachBehind(lines, |rxbuf|, rest, true);
          line := rxbuf[..nl];
          rxbuf, taken := rxbuf[nl + 1..], taken + 1;
          assert Unread() == lines[1..];
          return true, line, rest;
        }
        if rest == [] || rest[0].Failed? || rest[0] == Moved(0) || (rest[0].Moved? && |rxbuf| == |Join(Unread())|) {
          assert Ahead(rest) == |rxbuf|;
          return false, "", rest;
        }
        if rest[0].Moved? {
          ReachKept(text, |rxbuf|, rest, true);
          Receive(rest[0].n);
        }
        rest := rest[1..];
      }
    }

    /** A command read whole makes the server emit its turn. */
    method Deliver(line: string)
      requires Valid() && connected
      modifies this`commands, this`partial
      ensures Valid() && commands == old(commands) + [line] && partial == ""
      ensures Unread() == old(Unread()) + server.turn(|old(commands)|).Lines()
    {
      hide Join;
      ghost var before := Unread();
      commands, partial := commands + [line], "";
      assert Unread() == before + server.turn(|commands| - 1).Lines();
      JoinAppend(before, server.turn(|commands| - 1).Lines());
    }

    /** Sends a command and its newline over however many partial writes: whole exactly when the sends move that
        many bytes before one fails. */
    method WriteLine(line: string, sends: seq<Wait>) returns (ok: bool)
      requires Valid() && connected && partial == ""
      modifies this`commands, this`partial
      ensures Valid() && (ok <==> Total(sends, true) > |line|)
      ensures ok ==> commands == old(commands) + [line] && partial == ""
      ensures ok ==> Unread() == old(Unread()) + server.turn(|old(commands)|).Lines()
      ensures !ok ==> commands == old(commands) && partial == (line + "\n")[..Total(sends, true)]
    {
      hide Server.Log, Join;
      var out, off, rest := line + "\n", 0, sends;
      while off < |out|
        invariant 0 <= off <= |out| && commands == old(commands) && partial == out[..off] && Valid()
        invariant Min(|out|, Total(sends, true)) == Min(|out|, off + Total(rest, true))
        decreases rest
      {
        if rest == [] || rest[0].Failed? || rest[0] == Moved(0) {
          return false;
        }
        if rest[0].Moved? {
          off := off + Min(rest[0].n, |out| - off);
          partial := out[..off];
        }
        rest := rest[1..];
      }
      Deliver(line);
      ok := true;
    }

    /** Reads past blank lines and events to the reply of the one outstanding command, the line at `at`. */
    method ReadReply(recvs: seq<Wait>, ghost at: nat) returns (o: Outcome)
      requires Valid() && connected && partial == "" && |commands| > 0 && at < |Unread()|
      requires Unread()[at] == server.turn(|commands| - 1).reply
      requires codec.Others(Unread()[..at]) && codec.Others(Unread()[at + 1..])
      modifies this`rxbuf, this`taken
      ensures Valid() && o == old(FirstReply(codec, Unread(), Ahead(recvs)))
      ensures o.Result? || o.AppError? ==> Idle() && o == Meaning(codec.Classify(server.turn(|commands| - 1).reply))
      ensures o.Result? ==> codec.Returns(server.turn(|commands| - 1).reply, o.value)
      ensures o.AppError? ==> codec.Refuses(server.turn(|commands| - 1).reply, o.desc)
      ensures o.TransportError? || o.Result? || o.AppError?
    {
      hide Server.Log, Join, Newline, Reach;
      var rest := recvs;
      ghost var before := Unread();
      while true
        invariant Valid() && old(taken) <= taken && Unread() == before[taken - old(taken)..]
        invariant FirstReply(codec, Unread(), Ahead(rest)) == old(FirstReply(codec, Unread(), Ahead(recvs)))
        decreases |Emitted()| - taken
      {
        ghost var k := taken - old(taken);
        var ok, line;
        ok, line, rest := ReadLine(rest);
        if !ok {
          return TransportError;
        }
        assert line == before[k] && Unread() == before[k + 1..];
        assert k < at ==> before[..at][k] == line;
        assert k > at ==> before[at + 1..][k - at - 1] == line;
        if line == "" {
          continue;
        }
        var doc := codec.parse(line);
        if doc.None? {
          return TransportError;
        }
        if doc.value.event {
          continue;
        }
        if doc.value.error.Some? {
          return AppError(doc.value.error.value);
        }
        return if doc.value.result.Some? then Result(doc.value.result.value) else TransportError;
      }
    }

    /** The lines a command sent now would put ahead of the client, its own reply among them. */
    function Coming(): seq<string>
      requires taken <= |Emitted()|
      reads this
    {
      Unread() + server.turn(|commands|).Lines()
    }

    /** A line sent now goes out whole, nothing but blanks and events comes before its reply, and the reply in time. */
    predicate AnsweredInTime(line: string, sends: seq<Wait>, recvs: seq<Wait>)
      requires taken <= |Emitted()|
      reads this
    {
      var quiet, reply := Unread() + server.turn(|commands|).before, server.turn(|commands|).reply;
      Total(sends, true) > |line| && codec.Quiet(quiet) && |Join(quiet + [reply])| <= |rxbuf| + Total(recvs, true)
    }

    /** A command is answered exactly when the sends take it out whole and the receives show its reply, and the
        answer is its own; any transport failure leaves the client closed with an empty buffer; refused
        arguments send nothing. */
    method Execute(cmd: string, args: string, sends: seq<Wait>, recvs: seq<Wait>) returns (o: Outcome)
      requires Valid() && Idle()
      modifies this
      ensures Valid() && Idle()
      ensures o == NotConnected <==> !old(connected)
      ensures o == BadArguments <==> old(connected) && codec.encode(cmd, args).None?
      ensures old(connected) && codec.encode(cmd, args).Some? ==>
                o == if Total(sends, true) <= |codec.encode(cmd, args).value| then TransportError
                     else FirstReply(codec, old(Coming()), Reach(Join(old(Coming())), |old(rxbuf)|, recvs, true))
      ensures o.TransportError? ==> !connected && rxbuf == ""
      ensures o.Result? || o.AppError? ==>
                && connected && server == old(server) && commands == old(commands) + [codec.encode(cmd, args).value]
                && o == Meaning(codec.Classify(server.turn(|old(commands)|).reply))
      ensures o.Result? ==> codec.Returns(server.turn(|old(commands)|).reply, o.value)
      ensures o.AppError? ==> codec.Refuses(server.turn(|old(commands)|).reply, o.desc)
      ensures old(connected) && codec.encode(cmd, args).Some? && old(AnsweredInTime(codec.encode(cmd, args).value, sends, recvs)) ==>
                && (forall t :: codec.Returns(old(server.turn(|commands|)).reply, t) ==> o == Result(t))
                && (forall d :: codec.Refuses(old(server.turn(|commands|)).reply, d) ==> o == AppError(d))
      ensures o.BadArguments? || o.NotConnected? ==>
                connected == old(connected) && rxbuf == old(rxbuf) && commands == old(commands)
    {
      hide Join, Server.Log, FirstReply, Reach;
      if !connected {
        return NotConnected;
      }
      var line := codec.encode(cmd, args);
      if line.None? {
        return BadArguments;
      }
      ghost var before, turn := Unread(), server.turn(|commands|);
      var ok := WriteLine(line.value, sends);
      if !ok {
        Close();
        return TransportError;
      }
      OwnTurn(before, turn);
      ghost var quiet := before + turn.before;
      assert before + turn.Lines() == quiet + [turn.reply] + turn.after;
      if codec.Quiet(quiet) && |Join(quiet + [turn.reply])| <= |rxbuf| + Total(recvs, true) {
        ReplyWithinReach(codec, quiet, turn.reply, turn.after, |rxbuf|, recvs);
        AnswerInTime(codec, quiet, turn.reply, turn.after, Ahead(recvs));
      }
      o := ReadReply(recvs, |before| + |turn.before|);
      if o.TransportError? {
        Close();
      }
    }

    lemma OwnTurn(before: seq<string>, turn: Turn)
      requires codec.Others(before) && codec.Others(turn.before) && codec.Others(turn.after)
      ensures var lines, at := before + turn.Lines(), |before| + |turn.before|;
              && lines[at] == turn.reply && codec.Others(lines[..at]) && codec.Others(lines[at + 1..])
    {
      var lines, at := before + turn.Lines(), |before| + |turn.before|;
      assert lines[..at] == before + turn.before && lines[at + 1..] == turn.after;
    }

    /** A fresh connection: greeting, then capability negotiation. Anything else closes. */
    method ConnectUnix(pathLength: nat, pathLimit: nat, peer: Option<Server>,
                       first: seq<Wait>, sends: seq<Wait>, recvs: seq<Wait>) returns (ok: bool)
      requires Valid() && (peer.Some? ==> peer.value.Valid(codec))
      modifies this
      ensures Valid() && Idle()
      ensures ok == connected && (!ok ==> rxbuf == "")
      ensures ok ==> pathLength < pathLimit && peer == Some(server) && commands == [CAPABILITIES]
      ensures ok ==> codec.isGreeting(server.greeting) && exists t :: codec.Returns(server.turn(0).reply, t)
      ensures pathLength < pathLimit && peer.Some? && Welcomes(codec, peer.value, first, sends, recvs) ==> ok
    {
      Close();
      if pathLength >= pathLimit || peer.None? {
        return false;
      }
      connected, server, commands, partial, taken := true, peer.value, [], "", 0;
      ok := Negotiate(first, sends, recvs);
      if !ok {
        Close();
      }
    }

    method Negotiate(first: seq<Wait>, sends: seq<Wait>, recvs: seq<Wait>) returns (ok: bool)
      requires Valid() && connected && rxbuf == "" && commands == [] && taken == 0 && partial == ""
      modifies this`rxbuf, this`taken, this`commands, this`partial
      ensures Valid() && (ok ==> Idle() && commands == [CAPABILITIES])
      ensures ok ==> codec.isGreeting(server.greeting) && exists t :: codec.Returns(server.turn(0).reply, t)
      ensures Welcomes(codec, server, first, sends, recvs) ==> ok
    {
      hide Join, FirstReply, Newline;
      assert Unread() == [server.greeting] + server.hello;
      assert Unread()[1..] == server.hello;
      GreetingLength(server.greeting, server.hello);
      var got, greeting, rest := ReadLine(first);
      if !got || !codec.isGreeting(greeting) {
        return false;
      }
      ghost var turn, lines := server.turn(0), Coming();
      ok := WriteLine(CAPABILITIES, sends);
      if !ok {
        return false;
      }
      OwnTurn(server.hello, turn);
      ghost var quiet := server.hello + turn.before;
      assert lines == quiet + [turn.reply] + turn.after;
      if Welcomes(codec, server, first, sends, recvs) {
        ReplyWithinReach(codec, quiet, turn.reply, turn.after, |rxbuf|, recvs);
        AnswerInTime(codec, quiet, turn.reply, turn.after, Ahead(recvs));
      }
      var o := ReadReply(recvs, |server.hello| + |turn.before|);
      ok := o.Result?;
    }

    lemma GreetingLength(greeting: string, hello: seq<string>)
      ensures |Join([greeting] + hello)| > |greeting|
    {
      assert ([greeting] + hello)[1..] == hello;
    }
  }
}
