/** The studio's runner session: one child process, one outstanding command, one reply line each.

    The runner is the session of `Daemon` at the other end of two pipes. What every write and read comes to is
    an input script, so when a call returns a reply is stated as well as which.
 */
module Studio {
  import opened CLang
  import opened Daemon
  import opened LineFraming

  const MAX_REPLY := 4 * 1024 * 1024

  /** What the client makes of a reply line. */
  datatype Verdict = Malformed | AppError | Good

  datatype Outcome = Stopped | CommandTooLong | Broken | Rejected(raw: string) | Reply(raw: string)

  class Session {
    const judge: string -> Verdict
    var process: bool
    var buffer: string
    // The current runner: its board, the complete lines it has been sent and the bytes of an incomplete one.
    var board: Board
    var commands: seq<string>
    var partial: string

    /** Everything a runner prints for some lines. */
    function Printed(lines: seq<string>): seq<string>
      reads this`board
    {
      Serve(board, 0, START, lines)
    }

    ghost predicate Valid()
      reads this
    {
      && board.Valid() && (!process ==> buffer == "")
      && (process ==> NoneSwallows(commands) && |Printed(commands)| == |commands| && partial == "" && buffer == "")
    }

    constructor (verdict: string -> Verdict, first: Board)
      requires first.Valid()
      ensures Valid() && !process && judge == verdict
    {
      judge, board := verdict, first;
      process, buffer, commands, partial := false, "", [], "";
    }

    method CloseProcess()
      modifies this`process, this`buffer
      ensures !process && buffer == ""
    {
      process, buffer := false, "";
    }

    /** Pushes the wire bytes through partial writes: whole exactly when the writes take that many bytes, full
        pipes aside, before the deadline or a broken pipe. */
    method WriteWire(line: string, sends: seq<Wait>) returns (ok: bool)
      requires Plain(line) && partial == ""
      modifies this`commands, this`partial
      ensures ok <==> Total(sends, true) > |line|
      ensures ok ==> commands == old(commands) + [line + "\n"] && partial == ""
      ensures !ok ==> commands == old(commands) && partial == (line + "\n")[..Total(sends, true)]
    {
      var wire, at, rest := line + "\n", 0, sends;
      while at < |wire|
        invariant 0 <= at <= |wire| && commands == old(commands) && partial == wire[..at]
        invariant Min(|wire|, Total(sends, true)) == Min(|wire|, at + Total(rest, true))
        decreases rest
      {
        if rest == [] || rest[0].Failed? || rest[0] == Moved(0) {
          return false;
        }
        if rest[0].Moved? {
          at := at + Min(rest[0].n, |wire| - at);
          partial := wire[..at];
        }
        rest := rest[1..];
      }
      commands, partial := commands + [wire], "";
      ok := true;
    }

    /** What the runner has printed behind the first `done` replies. */
    function Unread(done: nat): string
      requires done <= |Printed(commands)|
      reads this
    {
      Join(Printed(commands)[done..])
    }

    /** Reads until a newline is buffered: exactly when there is a reply no longer than the limit and the reads
        bring all of it before one fails. */
    method AwaitLine(done: nat, recvs: seq<Wait>) returns (ok: bool)
      requires board.Valid() && buffer == "" && done <= |Printed(commands)| <= done + 1
      modifies this`buffer
      ensures ok <==> 0 < |Unread(done)| <= MAX_REPLY && Total(recvs, false) >= |Unread(done)|
      ensures ok ==> buffer == Unread(done) && |Printed(commands)| == done + 1 && Plain(Printed(commands)[done])
                     && buffer == Printed(commands)[done] + "\n"
    {
      hide Serve, Join, Newline;
      ghost var text := Unread(done);
      OneLine(done);
      var rest := recvs;
      assert text[..0] == "";
      while '\n' !in buffer
        invariant |buffer| <= |text| && buffer == text[..|buffer|] && Unread(done) == text
        invariant |buffer| > 0 ==> |buffer| <= MAX_REPLY
        invariant Reach(text, |buffer|, rest, false) == Reach(text, 0, recvs, false)
        decreases rest
      {
        if rest == [] || !rest[0].Moved? || rest[0].n == 0 || |buffer| == |Unread(done)| {
          return false;
        }
        ReachKept(text, |buffer|, rest, false);
        buffer := Unread(done)[..|buffer| + Min(rest[0].n, |Unread(done)| - |buffer|)];
        rest := rest[1..];
        if |buffer| > MAX_REPLY {
          return false;
        }
      }
      ok := true;
    }

    /** At most one line is ahead, and its only newline is its last byte. */
    lemma OneLine(done: nat)
      requires board.Valid() && done <= |Printed(commands)| <= done + 1
      ensures |Printed(commands)| == done ==> Unread(done) == ""
      ensures |Printed(commands)| == done + 1 ==>
                Unread(done) == Printed(commands)[done] + "\n" && Plain(Printed(commands)[done])
      ensures forall n :: 0 <= n <= |Unread(done)| ==> ('\n' in Unread(done)[..n] <==> 0 < n == |Unread(done)|)
    {
      hide Serve;
      RepliesArePlain(board, 0, START, commands);
      if |Printed(commands)| == done + 1 {
        var line := Printed(commands)[done];
        assert Printed(commands)[done..] == [line];
        JoinOne(line);
        assert forall i :: 0 <= i < |line| ==> Unread(done)[i] == line[i];
        assert Unread(done)[|line|] == '\n';
      }
    }

    /** One more line is read whole and draws at most one more reply. */
    lemma OneMoreReply(before: seq<string>, line: string)
      requires NoneSwallows(before) && |Printed(before)| == |before| && commands == before + [line + "\n"]
      requires NUL !in line && |line| + 1 < LINE_BUFFER
      ensures NoneSwallows(commands)
      ensures Printed(before) <= Printed(commands) && |Printed(commands)| <= |commands|
    {
      hide Handle;
      ServeSnoc(board, before, line + "\n");
      assert NUL !in line + "\n";
    }

    /** The reply a command would draw from the runner. */
    function ReplyTo(line: string): seq<string>
      reads this
    {
      var all := Printed(commands + [line + "\n"]);
      if |all| <= |commands| then [] else [all[|commands|]]
    }

    /** Whether the writes take a command out and the reads bring its reply back. */
    predicate InTime(line: string, sends: seq<Wait>, recvs: seq<Wait>)
      reads this
    {
      && Total(sends, true) > |line| && ReplyTo(line) != []
      && |ReplyTo(line)[0]| < MAX_REPLY && Total(recvs, false) > |ReplyTo(line)[0]|
    }

    /** One command. Its own reply is returned exactly when it comes in time; on anything else the process and
        the buffer are gone, so no late reply can be read by the next one. */
    method Rpc(line: string, exited: bool, sends: seq<Wait>, recvs: seq<Wait>) returns (o: Outcome)
      requires Valid() && Plain(line) && NUL !in line
      modifies this
      ensures Valid() && board == old(board)
      ensures !old(process) || exited ==> o == Stopped && process == old(process) && commands == old(commands)
      ensures old(process) && !exited ==>
                if |line| + 1 >= LINE_BUFFER then o == CommandTooLong && process && commands == old(commands)
                else if !old(InTime(line, sends, recvs)) then o == Broken
                else
                  var raw := old(ReplyTo(line))[0];
                  match judge(raw)
                  case Malformed => o == Broken
                  case AppError => o == Rejected(raw)
                  case Good => o == Outcome.Reply(raw)
      ensures o.Broken? ==> !process && buffer == ""
      ensures o.Rejected? || o.Reply? ==>
                process && commands == old(commands) + [line + "\n"] && o.raw == Printed(commands)[|old(commands)|]
    {
      hide Serve, Swallows, Join;
      if !process || exited {
        return Stopped;
      }
      if |line + "\n"| >= LINE_BUFFER {
        return CommandTooLong;
      }
      var sent := WriteWire(line, sends);
      if !sent {
        CloseProcess();
        return Broken;
      }
      var done := |commands| - 1;
      OneMoreReply(old(commands), line);
      OneLine(done);
      var answered := AwaitLine(done, recvs);
      if !answered {
        CloseProcess();
        return Broken;
      }
      var nl := Newline(buffer, 0);
      assert nl == |buffer| - 1 by {
        LastByte(Printed(commands)[done]);
      }
      var raw := buffer[..nl];
      buffer := buffer[nl + 1..];
      match judge(raw) {
        case Malformed => CloseProcess(); o := Broken;
        case AppError => o := Rejected(raw);
        case Good => o := Outcome.Reply(raw);
      }
    }

    lemma LastByte(line: string)
      requires Plain(line)
      ensures Newline(line + "\n", 0) == |line|
    {
      var t := line + "\n";
      assert forall i :: 0 <= i < |line| ==> t[i] == line[i] && line[i] in line;
      assert t[|line|] == '\n';
    }

    /** A new session: the old runner goes first, so its output never reaches the new one. The boot's reply is
        the new runner's first, returned exactly when it comes in time. */
    method Boot(runner: Board, line: string, exited: bool, sends: seq<Wait>, recvs: seq<Wait>) returns (o: Outcome)
      requires Valid() && runner.Valid() && Plain(line) && NUL !in line
      modifies this
      ensures Valid() && board == runner
      ensures o.Broken? ==> !process && buffer == ""
      ensures o.Rejected? || o.Reply? ==>
                process && commands == [line + "\n"] && [o.raw] == Serve(runner, 0, START, [line + "\n"])
      ensures var first := Serve(runner, 0, START, [line + "\n"]);
              !exited && |line| + 1 < LINE_BUFFER && Total(sends, true) > |line|
              && first != [] && |first[0]| < MAX_REPLY && Total(recvs, false) > |first[0]| && !judge(first[0]).Malformed? ==>
                o == if judge(first[0]).Good? then Outcome.Reply(first[0]) else Rejected(first[0])
    {
      hide Serve;
      CloseProcess();
      process, board, commands, partial := true, runner, [], "";
      NothingServed();
      assert commands + [line + "\n"] == [line + "\n"];
      o := Rpc(line, exited, sends, recvs);
      if o.Rejected? || o.Reply? {
        assert |Printed(commands)| == 1;
      }
    }

    lemma NothingServed()
      ensures Printed([]) == []
    {
    }
  }
}
