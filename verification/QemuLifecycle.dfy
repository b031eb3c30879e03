/** The QEMU child's life: spawning, capturing, stopping, and the backend that boots and shuts down.

    `Os` is the part of the operating system this owns: children not yet reaped, descriptors opened and not yet
    closed, scratch directories and the files in them. Unless it is `flawless`, any of its calls may fail for
    want of something; signals may interrupt waits. What the child does is an input script, so when a start, a
    boot or a write succeeds is stated.
 */
module QemuLifecycle {
  import opened LineFraming
  import opened Pixels

  const CAPTURE_CAP := 1024 * 1024

  // ---- The child's descriptors ----

  datatype PipeEnd = StdinRead | StdinWrite | StdoutRead | StdoutWrite

  /** The spawn's file actions on the child's copy of the descriptor table: three dup2s, then four closes. */
  function ChildTable(table: map<int, PipeEnd>, in0: int, in1: int, out0: int, out1: int): map<int, PipeEnd>
    requires in0 in table && out1 in table
  {
    var t1 := table[0 := table[in0]];
    var t2 := if out1 in t1 then t1[1 := t1[out1]] else t1;
    var t3 := if out1 in t2 then t2[2 := t2[out1]] else t2;
    t3 - {in0, in1, out0, out1}
  }

  function PipeTable(in0: int, in1: int, out0: int, out1: int): map<int, PipeEnd> {
    map[in0 := StdinRead, in1 := StdinWrite, out0 := StdoutRead, out1 := StdoutWrite]
  }

  predicate Distinct(in0: int, in1: int, out0: int, out1: int) {
    in0 != in1 && in0 != out0 && in0 != out1 && in1 != out0 && in1 != out1 && out0 != out1
  }

  /** The child holds its own ends as 0, 1 and 2 and nothing else of the pipes exactly when all four descriptors
      were moved above 2 first. */
  lemma WiredIffNormalized(in0: int, in1: int, out0: int, out1: int)
    requires Distinct(in0, in1, out0, out1) && in0 >= 0 && in1 >= 0 && out0 >= 0 && out1 >= 0
    ensures ChildTable(PipeTable(in0, in1, out0, out1), in0, in1, out0, out1) ==
              map[0 := StdinRead, 1 := StdoutWrite, 2 := StdoutWrite]
            <==> in0 > 2 && in1 > 2 && out0 > 2 && out1 > 2
  {
    var c := ChildTable(PipeTable(in0, in1, out0, out1), in0, in1, out0, out1);
    if !(in0 > 2 && in1 > 2 && out0 > 2 && out1 > 2) {
      var low := if in0 <= 2 then in0 else if in1 <= 2 then in1 else if out0 <= 2 then out0 else out1;
      assert low in map[0 := StdinRead, 1 := StdoutWrite, 2 := StdoutWrite] && low !in c;
    }
  }

  // ---- The operating system ----

  const NAMES: set<string> := {"qmp.sock", "screen.ppm", "agent.sock"}

  datatype Waited = StillRunning | Reaped | Interrupted

  class Os {
    // No call fails for want of descriptors, memory, processes or space.
    const flawless: bool
    var children: set<int>
    var alive: set<int>
    var open: set<int>
    var dirs: map<int, set<string>>
    var signals: nat

    ghost predicate Valid()
      reads this
    {
      && alive <= children && (forall fd :: fd in open ==> fd >= 0)
      && (forall d :: d in dirs ==> d >= 0 && dirs[d] <= NAMES)
    }

    constructor (perfect: bool, pending: nat)
      ensures Valid() && children == {} && open == {} && dirs == map[] && flawless == perfect
    {
      flawless, children, alive, open, dirs, signals := perfect, {}, {}, {}, map[], pending;
    }

    /** Whether a call that can fail for want of something goes through. */
    method Try() returns (ok: bool)
      ensures flawless ==> ok
    {
      ok := *;
      ok := ok || flawless;
    }

    /** Some number from a bound on that a set does not hold. */
    method Unused(taken: set<int>, low: int) returns (n: int)
      ensures n >= low && n !in taken
    {
      n := *;
      if n >= low && n !in taken {
        return;
      }
      n := low;
      ghost var above := set x | x in taken && x >= n;
      while n in taken
        invariant n >= low && above == set x | x in taken && x >= n
        decreases |above|
      {
        ghost var fewer := set x | x in taken && x >= n + 1;
        assert above == fewer + {n};
        n, above := n + 1, fewer;
      }
    }

    method Pipe() returns (ok: bool, r: int, w: int)
      requires Valid()
      modifies this`open
      ensures Valid() && (flawless ==> ok)
      ensures ok ==> r >= 0 && w >= 0 && r != w && r !in old(open) && w !in old(open) && open == old(open) + {r, w}
      ensures !ok ==> open == old(open)
    {
      r, w := -1, -1;
      ok := Try();
      if ok {
        r := Unused(open, 0);
        w := Unused(open + {r}, 0);
        open := open + {r, w};
      }
    }

    /** F_DUPFD above the standard streams. */
    method DupAbove() returns (fd: int)
      requires Valid()
      modifies this`open
      ensures Valid() && (fd < 0 ==> open == old(open) && !flawless)
      ensures fd >= 0 ==> fd > 2 && fd !in old(open) && open == old(open) + {fd}
    {
      var ok := Try();
      if !ok {
        return -1;
      }
      fd := Unused(open, 3);
      open := open + {fd};
    }

    method Close(fd: int)
      requires Valid()
      modifies this`open
      ensures Valid() && open == old(open) - {fd}
    {
      open := open - {fd};
    }

    method Spawn() returns (pid: int)
      requires Valid()
      modifies this`children, this`alive
      ensures Valid() && (pid < 0 ==> children == old(children) && alive == old(alive) && !flawless)
      ensures pid >= 0 ==> pid !in old(children) && children == old(children) + {pid} && alive == old(alive) + {pid}
    {
      var ok := Try();
      if !ok {
        return -1;
      }
      pid := Unused(children, 1);
      children, alive := children + {pid}, alive + {pid};
    }

    /** A child ends; it stays to be waited for. */
    method Exit(pid: int)
      requires Valid()
      modifies this`alive
      ensures Valid() && alive == old(alive) - {pid}
    {
      alive := alive - {pid};
    }

    /** waitpid: a child that ended is gone afterwards. A blocking wait waits for that. */
    method Wait(pid: int, block: bool) returns (r: Waited)
      requires Valid()
      modifies this`children, this`alive, this`signals
      ensures Valid()
      ensures r.Reaped? ==> children == old(children) - {pid} && alive == old(alive) - {pid} && signals == old(signals)
      ensures !r.Reaped? ==> children == old(children) && alive == old(alive)
      ensures r.Interrupted? ==> signals < old(signals)
      ensures r.StillRunning? ==> !block && signals == old(signals) && pid in alive
      ensures r.Reaped? && !block ==> pid !in old(alive)
    {
      var caught: bool := *;
      if caught && signals > 0 {
        signals := signals - 1;
        return Interrupted;
      }
      if pid in alive && !block {
        return StillRunning;
      }
      children, alive := children - {pid}, alive - {pid};
      r := Reaped;
    }

    method MkTemp() returns (d: int)
      requires Valid()
      modifies this`dirs
      ensures Valid() && (d < 0 ==> dirs == old(dirs) && !flawless)
      ensures d >= 0 ==> d !in old(dirs) && dirs == old(dirs)[d := {}]
    {
      var ok := Try();
      if !ok {
        return -1;
      }
      d := Unused(dirs.Keys, 0);
      dirs := dirs[d := {}];
    }

    method Unlink(d: int, name: string)
      requires Valid() && d in dirs
      modifies this`dirs
      ensures Valid() && dirs == old(dirs)[d := old(dirs)[d] - {name}]
    {
      dirs := dirs[d := dirs[d] - {name}];
    }

    /** Removes a directory only when it is empty. */
    method Rmdir(d: int)
      requires Valid() && d in dirs
      modifies this`dirs
      ensures Valid() && dirs == if old(dirs)[d] == {} then old(dirs) - {d} else old(dirs)
    {
      if dirs[d] == {} {
        dirs := dirs - {d};
      }
    }

    /** The child's work on its scratch directory: sockets and dumps come up there. */
    method Create(d: int)
      requires Valid()
      modifies this`dirs
      ensures Valid() && dirs.Keys == old(dirs).Keys
    {
      var name: string := *;
      if d in dirs && name in NAMES {
        dirs := dirs[d := dirs[d] + {name}];
      }
    }
  }

  // ---- One child ----

  function Owned(fd: int): set<int> { if fd >= 0 then {fd} else {} }

  /** What a bounded capture promises of everything read so far. */
  predicate KeepsTail(captured: string, output: string) {
    && |captured| <= CAPTURE_CAP && |captured| <= |output| && captured == output[|output| - |captured|..]
    && (|captured| == |output| || |captured| >= CAPTURE_CAP / 2)
  }

  /** Appending a chunk and dropping the front half past the cap keeps the promise. */
  lemma TailKept(captured: string, output: string, chunk: string)
    requires KeepsTail(captured, output)
    ensures var longer := captured + chunk;
            KeepsTail(if |longer| > CAPTURE_CAP then longer[|longer| - CAPTURE_CAP / 2..] else longer, output + chunk)
  {
    var longer, all := captured + chunk, output + chunk;
    assert longer == all[|all| - |longer|..];
  }

  /** One attempt to connect to QMP: it connects, or the child ends or a signal arrives behind it. */
  datatype Attempt = Attempt(connected: bool, dies: bool, interrupted: bool)

  /** An attempt connects while the child lives and no signal came. */
  predicate Connects(attempts: seq<Attempt>) {
    attempts != [] && (attempts[0].connected || (!attempts[0].dies && !attempts[0].interrupted && Connects(attempts[1..])))
  }

  /** What one read of the child's output comes to. */
  datatype Read = Chunk(text: string) | Nothing | Repeat | Ended

  /** The text some reads bring before nothing is pending or the stream ends. */
  function Came(got: seq<Read>): string {
    if got == [] then ""
    else
      match got[0]
      case Chunk(text) => text + Came(got[1..])
      case Repeat => Came(got[1..])
      case _ => ""
  }

  /** Whether they reach the end of the stream. */
  predicate Closes(got: seq<Read>) {
    got != [] && (got[0].Ended? || (!got[0].Nothing? && Closes(got[1..])))
  }

  class QemuProcess {
    const os: Os
    var pid: int
    var inFd: int
    var outFd: int
    var qmp: bool
    var captured: string
    // Every byte read from this child, every byte written to it, and the descriptors it was started with.
    var output: string
    var written: string
    var childTable: map<int, PipeEnd>

    ghost predicate Valid()
      reads this, os
    {
      && os.Valid() && os.children == Owned(pid) && os.open == Owned(inFd) + Owned(outFd)
      && (inFd >= 0 ==> inFd != outFd) && KeepsTail(captured, output)
    }

    /** No child, no pipe, no QMP connection. */
    predicate Stopped()
      reads this
    {
      pid < 0 && inFd < 0 && outFd < 0 && !qmp
    }

    constructor (system: Os)
      requires system.Valid() && system.children == {} && system.open == {}
      ensures Valid() && Stopped() && os == system
    {
      os, pid, inFd, outFd, qmp := system, -1, -1, -1, false;
      captured, output, written, childTable := "", "", "", map[];
    }

    /** Moves a descriptor off the standard streams. */
    method Normalize(fd: int) returns (moved: int)
      requires os.Valid() && fd in os.open
      modifies os`open
      ensures os.Valid() && (moved < 0 ==> os.open == old(os.open) && !os.flawless)
      ensures moved >= 0 ==> moved > 2 && os.open == old(os.open) - {fd} + {moved} && (moved == fd || moved !in old(os.open))
    {
      if fd > 2 {
        return fd;
      }
      moved := os.DupAbove();
      if moved >= 0 {
        os.Close(fd);
      }
    }

    method CloseAll(fds: seq<int>)
      requires os.Valid()
      modifies os`open
      ensures os.Valid() && os.open == old(os.open) - set fd | fd in fds
    {
      var i := 0;
      while i < |fds|
        invariant 0 <= i <= |fds| && os.Valid() && os.open == old(os.open) - set fd | fd in fds[..i]
      {
        assert fds[..i + 1] == fds[..i] + [fds[i]];
        os.Close(fds[i]);
        i := i + 1;
      }
      assert fds[..i] == fds;
    }

    predicate AllDifferent(fds: seq<int>) { forall i, j :: 0 <= i < j < |fds| ==> fds[i] != fds[j] }

    /** Two pipes, all four ends above the standard streams, or nothing opened. */
    method OpenPipes() returns (ok: bool, fds: seq<int>)
      requires os.Valid() && os.open == {}
      modifies os`open
      ensures os.Valid() && (!ok ==> os.open == {} && !os.flawless)
      ensures ok ==> |fds| == 4 && AllDifferent(fds) && (forall i :: 0 <= i < 4 ==> fds[i] > 2)
                     && os.open == {fds[0], fds[1], fds[2], fds[3]}
    {
      var got, in0, in1 := os.Pipe();
      if !got {
        return false, [];
      }
      var gotOut, out0, out1 := os.Pipe();
      if !gotOut {
        CloseAll([in0, in1]);
        return false, [];
      }
      fds := [in0, in1, out0, out1];
      var i := 0;
      while i < 4
        invariant 0 <= i <= 4 && |fds| == 4 && os.Valid() && AllDifferent(fds)
        invariant os.open == {fds[0], fds[1], fds[2], fds[3]}
        invariant forall k :: 0 <= k < i ==> fds[k] > 2
      {
        var moved := Normalize(fds[i]);
        if moved < 0 {
          CloseAll(fds);
          return false, [];
        }
        fds := fds[i := moved];
        i := i + 1;
      }
      ok := true;
    }

    /** Keeps the parent's two ends, and starts a new capture. */
    method Adopt(child: int, fds: seq<int>)
      requires os.Valid() && os.children == {child} && child >= 0
      requires |fds| == 4 && AllDifferent(fds) && (forall i :: 0 <= i < 4 ==> fds[i] > 2)
      requires os.open == {fds[0], fds[1], fds[2], fds[3]}
      modifies this, os`open
      ensures Valid() && pid == child && qmp == old(qmp) && inFd >= 0 && outFd >= 0
      ensures captured == "" && output == "" && written == ""
      ensures childTable == map[0 := StdinRead, 1 := StdoutWrite, 2 := StdoutWrite]
    {
      hide ChildTable, KeepsTail;
      os.Close(fds[0]);
      os.Close(fds[3]);
      inFd, outFd, pid := fds[1], fds[2], child;
      captured, output, written := "", "", "";
      NothingCaptured();
      childTable := ChildTable(PipeTable(fds[0], fds[1], fds[2], fds[3]), fds[0], fds[1], fds[2], fds[3]);
      WiredIffNormalized(fds[0], fds[1], fds[2], fds[3]);
      assert os.open == {fds[1], fds[2]};
    }

    /** Spawns the child on fresh pipes, when no call fails. A failure anywhere leaves no child and no
        descriptor. */
    method SpawnOnly(argv: seq<string>) returns (ok: bool)
      requires Valid() && Stopped()
      modifies this, os`children, os`alive, os`open, os`signals
      ensures Valid() && (!ok ==> Stopped())
      ensures argv == [] ==> !ok
      ensures argv != [] && os.flawless ==> ok
      ensures ok ==> pid >= 0 && pid in os.alive && !qmp && inFd >= 0 && outFd >= 0
                     && captured == "" && output == "" && written == ""
                     && childTable == map[0 := StdinRead, 1 := StdoutWrite, 2 := StdoutWrite]
    {
      hide ChildTable, KeepsTail;
      if argv == [] {
        return false;
      }
      var piped, fds := OpenPipes();
      if !piped {
        return false;
      }
      var recorded := os.Try();
      if !recorded {
        CloseAll(fds);
        return false;
      }
      var child := os.Spawn();
      if child < 0 {
        CloseAll(fds);
        return false;
      }
      Adopt(child, fds);
      var nonblocking := os.Try();
      if !nonblocking {
        Stop(0);
        return false;
      }
      ok := true;
    }

    lemma NothingCaptured()
      ensures KeepsTail("", "")
    {
    }

    /** Whether the child lives; one that does not is reaped. */
    method Running() returns (alive: bool)
      requires Valid()
      modifies this`pid, os`children, os`alive, os`signals
      ensures Valid() && (alive <==> old(pid) >= 0 && old(pid) in old(os.alive))
      ensures if alive then pid == old(pid) && os.alive == old(os.alive) else pid < 0
    {
      if pid < 0 {
        return false;
      }
      while true
        invariant Valid() && pid == old(pid) && pid >= 0 && os.alive == old(os.alive)
        decreases os.signals
      {
        var r := os.Wait(pid, false);
        match r {
          case StillRunning => return true;
          case Interrupted =>
          case Reaped =>
            pid := -1;
            return false;
        }
      }
    }

    method WaitForExit(patience: nat) returns (gone: bool)
      requires Valid()
      modifies this`pid, os`children, os`alive, os`signals
      ensures Valid() && (gone ==> pid < 0)
    {
      var budget := patience;
      while true
        invariant Valid()
        decreases budget
      {
        var dies: bool := *;
        if dies {
          os.Exit(pid);
        }
        var alive := Running();
        if !alive {
          return true;
        }
        if budget == 0 {
          return false;
        }
        budget := budget - 1;
      }
    }

    /** Quit, terminate, kill, reap, close: whatever fails on the way, nothing is left. Safe to repeat. */
    method Stop(patience: nat)
      requires Valid()
      modifies this`pid, this`qmp, this`inFd, this`outFd, os`children, os`alive, os`open, os`signals
      ensures Valid() && Stopped()
    {
      if pid >= 0 {
        qmp := false;
        var alive := Running();
        if alive {
          var gone := WaitForExit(patience);
          if !gone {
            gone := WaitForExit(patience);
          }
        }
        if pid >= 0 {
          Reap();
        }
      } else {
        qmp := false;
      }
      CloseOut();
      if inFd >= 0 {
        os.Close(inFd);
        inFd := -1;
      }
    }

    /** The last, blocking wait, repeated for as long as signals interrupt it. */
    method Reap()
      requires Valid() && pid >= 0
      modifies this`pid, os`children, os`alive, os`signals
      ensures Valid() && pid < 0
    {
      var r := os.Wait(pid, true);
      while r.Interrupted?
        invariant r.Interrupted? ==> Valid() && pid == old(pid)
        invariant !r.Interrupted? ==> os.children == {} && os.Valid() && pid == old(pid)
        decreases os.signals, r.Interrupted?
      {
        r := os.Wait(pid, true);
      }
      pid := -1;
    }

    method CloseOut()
      requires Valid()
      modifies this`outFd, os`open
      ensures Valid() && outFd < 0 && outFd == if old(outFd) >= 0 then -1 else old(outFd)
    {
      if outFd >= 0 {
        os.Close(outFd);
        outFd := -1;
      }
    }

    /** Spawn, then connect until QMP answers, the child dies, a signal arrives or the window closes: started
        exactly when an attempt connects before any of the others, and no call fails. */
    method Start(argv: seq<string>, attempts: seq<Attempt>, patience: nat) returns (ok: bool)
      requires Valid() && Stopped()
      modifies this, os`children, os`alive, os`open, os`signals
      ensures Valid() && (ok ==> pid >= 0 && pid in os.alive && qmp) && (!ok ==> Stopped())
      ensures ok ==> inFd >= 0 && outFd >= 0 && output == "" && written == ""
      ensures ok ==> Connects(attempts)
      ensures os.flawless && argv != [] && Connects(attempts) ==> ok
    {
      hide KeepsTail;
      ok := SpawnOnly(argv);
      if !ok {
        return;
      }
      var rest := attempts;
      while rest != []
        invariant Valid() && pid >= 0 && pid in os.alive && Connects(rest) == Connects(attempts)
        invariant inFd >= 0 && outFd >= 0 && output == "" && written == ""
        decreases rest
      {
        if rest[0].connected {
          qmp := true;
          return true;
        }
        if rest[0].dies {
          os.Exit(pid);
        }
        var alive := Running();
        if !alive || rest[0].interrupted {
          Stop(patience);
          return false;
        }
        rest := rest[1..];
      }
      Stop(patience);
      ok := false;
    }

    /** Appends what was read, and drops the front half past the cap. */
    method Keep(chunk: string)
      requires Valid()
      modifies this`captured, this`output
      ensures Valid() && output == old(output) + chunk
    {
      hide KeepsTail;
      TailKept(captured, output, chunk);
      captured, output := captured + chunk, output + chunk;
      if |captured| > CAPTURE_CAP {
        captured := captured[|captured| - CAPTURE_CAP / 2..];
      }
    }

    /** Drains the pipe into the bounded capture: everything pending is read, and the end of the stream closes
        the pipe. */
    method Pump(got: seq<Read>)
      requires Valid()
      modifies this`captured, this`output, this`outFd, os`open
      ensures Valid() && output == old(output) + if old(outFd) >= 0 then Came(got) else ""
      ensures outFd == if old(outFd) >= 0 && Closes(got) then -1 else old(outFd)
    {
      hide KeepsTail;
      if outFd < 0 {
        return;
      }
      var rest := got;
      while rest != []
        invariant Valid() && outFd == old(outFd) >= 0 && output + Came(rest) == old(output) + Came(got)
        invariant Closes(rest) == Closes(got)
        decreases rest
      {
        match rest[0] {
          case Chunk(text) =>
            Keep(text);
          case Nothing => return;
          case Repeat =>
          case Ended =>
            CloseOut();
            return;
        }
        rest := rest[1..];
      }
    }

    /** Writes to the child's stdin within the deadline: all of it exactly when the pipe takes that many bytes
        before a signal, an error or the deadline. A failure can leave a part written, never a gap. */
    method SerialWrite(data: string, sends: seq<Wait>) returns (ok: bool)
      requires Valid()
      modifies this`written
      ensures Valid() && (ok <==> inFd >= 0 && Total(sends, true) >= |data|)
      ensures written == old(written) + if inFd >= 0 then data[..Min(|data|, Total(sends, true))] else ""
    {
      hide KeepsTail;
      if inFd < 0 {
        return false;
      }
      var off, rest := 0, sends;
      while off < |data|
        invariant 0 <= off <= |data| && Valid() && written == old(written) + data[..off]
        invariant Min(|data|, Total(sends, true)) == Min(|data|, off + Total(rest, true))
        decreases rest
      {
        if rest == [] || rest[0].Failed? || rest[0] == Moved(0) {
          return false;
        }
        if rest[0].Moved? {
          var n := Min(rest[0].n, |data| - off);
          assert data[..off + n] == data[..off] + data[off..off + n];
          off, written := off + n, written + data[off..off + n];
        }
        rest := rest[1..];
      }
      ok := true;
    }
  }

  // ---- The backend ----

  /** What of a board's spec decides the boot. */
  datatype Target = Target(machine: string, agent: bool, httpGuestPort: int)

  /** One beat of a settling wait: whether a signal was seen before it, whether the child ended in it, and what
      the reads at its end bring. */
  datatype Beat = Beat(interrupted: bool, dies: bool, got: seq<Read>)

  /** No signal cuts the wait short. */
  predicate Calm(beats: seq<Beat>) {
    beats == [] || (!beats[0].interrupted && Calm(beats[1..]))
  }

  /** Whether the child ends during the wait. */
  predicate Fatal(beats: seq<Beat>) {
    beats != [] && !beats[0].interrupted && (beats[0].dies || Fatal(beats[1..]))
  }

  /** What the wait hears of the child before a signal or the end of its output. */
  function Heard(beats: seq<Beat>): string {
    if beats == [] || beats[0].interrupted then ""
    else Came(beats[0].got) + if Closes(beats[0].got) then "" else Heard(beats[1..])
  }

  lemma BeatByBeat(beat: Beat, rest: seq<Beat>)
    ensures Calm([beat] + rest) <==> !beat.interrupted && Calm(rest)
    ensures Fatal([beat] + rest) <==> !beat.interrupted && (beat.dies || Fatal(rest))
    ensures Heard([beat] + rest) == if beat.interrupted then "" else Came(beat.got) + if Closes(beat.got) then "" else Heard(rest)
  {
    assert ([beat] + rest)[1..] == rest;
  }

  lemma NoBeats()
    ensures Calm([]) && !Fatal([]) && Heard([]) == ""
  {
  }

  /** A wait pumps once before its first look at the clock and the signals. */
  function Unasked(first: Beat): Beat { first.(interrupted := false) }

  /** What a boot meets: the binary and image are there, the connection attempts, a signal, the machine's state,
      and the warm-up. */
  datatype Course = Course(resolved: bool, attempts: seq<Attempt>, interrupted: bool, running: bool,
                           first: Beat, beats: seq<Beat>) {
    predicate Succeeds() {
      resolved && Connects(attempts) && !interrupted && running && Calm(beats)
    }

    /** The whole warm-up. */
    function Warmup(): seq<Beat> { [Unasked(first)] + beats }
  }

  datatype Op = Boot(target: Option<Target>, course: Course, patience: nat) | Shutdown(patience: nat)
              | Tick(got: seq<Read>) | Write(data: string, sends: seq<Wait>) | Exits
              | QueryPort | QueryAgent | UseAgent(connected: bool, answered: bool) | Capture(dumped: bool, decoded: bool)

  class QemuBackend {
    const os: Os
    const process: QemuProcess
    var socketDir: int
    var httpPort: int
    var agentCapable: bool
    var agent: bool
    var active: Option<Target>

    /** At most one child and one scratch directory, both this backend's own; without a directory, nothing runs. */
    ghost predicate Valid()
      reads this, os, process
    {
      && process.os == os && process.Valid() && os.dirs.Keys == Owned(socketDir)
      && (socketDir < 0 ==> process.Stopped() && !agent)
    }

    /** Nothing is left of a boot. */
    predicate Clean()
      reads this, os, process
    {
      os.children == {} && os.open == {} && os.dirs == map[] && process.Stopped() && !agent
    }

    /** The child has been spawned and has not ended. */
    predicate Lives()
      reads this, os, process
    {
      process.pid >= 0 && process.pid in os.alive
    }

    constructor (system: Os)
      requires system.Valid() && system.children == {} && system.open == {} && system.dirs == map[]
      ensures Valid() && Clean() && os == system && fresh(process)
    {
      os := system;
      process := new QemuProcess(system);
      socketDir, httpPort, agentCapable, agent, active := -1, 0, false, false, None;
    }

    /** Empties and removes the scratch directory. */
    method CleanupDir()
      requires Valid() && process.Stopped() && !agent
      modifies this`socketDir, os`dirs
      ensures Valid() && Clean()
    {
      if socketDir < 0 {
        assert os.dirs.Keys == {};
        return;
      }
      os.Unlink(socketDir, "qmp.sock");
      os.Unlink(socketDir, "screen.ppm");
      os.Unlink(socketDir, "agent.sock");
      assert os.dirs[socketDir] == {};
      os.Rmdir(socketDir);
      assert os.dirs.Keys == {};
      socketDir := -1;
    }

    method Shutdown(patience: nat)
      requires Valid()
      modifies this, process, os
      ensures Valid() && Clean() && !agentCapable && httpPort == 0
    {
      agent, agentCapable, httpPort := false, false, 0;
      process.Stop(patience);
      CleanupDir();
    }

    /** One beat passes: the child may end in it, and its output is pumped. */
    method Pass(beat: Beat)
      requires Valid()
      modifies process`captured, process`output, process`outFd, os`open, os`dirs, os`alive
      ensures Valid() && (Lives() <==> old(Lives()) && !beat.dies)
      ensures process.output == old(process.output) + if old(process.outFd) >= 0 then Came(beat.got) else ""
      ensures process.outFd == if old(process.outFd) >= 0 && Closes(beat.got) then -1 else old(process.outFd)
    {
      hide KeepsTail;
      if beat.dies {
        os.Exit(process.pid);
      }
      process.Pump(beat.got);
      os.Create(socketDir);
    }

    /** Pumps until the deadline, keeping what it hears; false exactly when a signal cut it short. It never asks
        whether the child lives. */
    method Settle(first: Beat, beats: seq<Beat>) returns (ok: bool)
      requires Valid()
      modifies process`captured, process`output, process`outFd, os`open, os`dirs, os`alive
      ensures Valid() && (ok <==> Calm(beats))
      ensures Lives() <==> old(Lives()) && !Fatal([Unasked(first)] + beats)
      ensures process.output == old(process.output) + if old(process.outFd) >= 0 then Heard([Unasked(first)] + beats) else ""
    {
      hide KeepsTail, Came, Closes, Heard, Fatal, Calm, QemuBackend.Valid, QemuBackend.Lives;
      BeatByBeat(Unasked(first), beats);
      NoBeats();
      Pass(first);
      var rest := beats;
      while rest != []
        invariant Valid() && Calm(rest) == Calm(beats)
        invariant (Lives() && !Fatal(rest)) == (old(Lives()) && !Fatal([Unasked(first)] + beats))
        invariant process.output + (if process.outFd >= 0 then Heard(rest) else "") ==
                  old(process.output) + (if old(process.outFd) >= 0 then Heard([Unasked(first)] + beats) else "")
        decreases rest
      {
        assert [rest[0]] + rest[1..] == rest;
        BeatByBeat(rest[0], rest[1..]);
        if rest[0].interrupted {
          return false;
        }
        Pass(rest[0]);
        rest := rest[1..];
      }
      ok := true;
    }

    /** The scratch directory and, for a board with a server, the forwarded port. */
    method Prepare(t: Target) returns (ok: bool)
      requires Valid() && Clean()
      modifies this`socketDir, this`agentCapable, this`httpPort, os`dirs
      ensures Valid() && process.Stopped() && !agent && (!ok ==> Clean() && !os.flawless)
      ensures ok ==> socketDir >= 0 && agentCapable == t.agent && (httpPort > 0 <==> t.httpGuestPort > 0)
    {
      hide KeepsTail;
      var dir := os.MkTemp();
      if dir < 0 {
        return false;
      }
      socketDir, agentCapable, httpPort := dir, t.agent, 0;
      if t.httpGuestPort > 0 {
        var bound := os.Try();
        if !bound {
          CleanupDir();
          return false;
        }
        httpPort := os.Unused({}, 1);
      }
      ok := true;
    }

    /** From the spawn to a machine that reports itself running. */
    method Launch(t: Target, course: Course, patience: nat) returns (ok: bool)
      requires Valid() && process.Stopped() && !agent && socketDir >= 0
      modifies this`socketDir, process, os
      ensures Valid() && !agent && (!ok ==> Clean())
      ensures ok ==> Lives() && socketDir == old(socketDir) && Connects(course.attempts) && !course.interrupted && course.running
      ensures ok ==> process.outFd >= 0 && process.output == ""
      ensures os.flawless && Connects(course.attempts) && !course.interrupted && course.running ==> ok
    {
      hide KeepsTail;
      var started := process.Start([t.machine], course.attempts, patience);
      os.Create(socketDir);
      if !started {
        CleanupDir();
        return false;
      }
      if course.interrupted || !course.running {
        process.Stop(patience);
        CleanupDir();
        return false;
      }
      ok := true;
    }

    /** A boot succeeds when its course does and no call fails; its child then lives exactly unless it ended during
        the warm-up, which the boot does not notice. One that fails at any step leaves no child, no pipe, no QMP
        connection, no directory and no agent. */
    method Boot(t: Option<Target>, course: Course, patience: nat) returns (ok: bool)
      requires Valid()
      modifies this, process, os
      ensures Valid() && (!ok ==> Clean())
      ensures ok ==> t.Some? && course.Succeeds()
      ensures os.flawless && t.Some? && course.Succeeds() ==> ok
      ensures ok ==> (Lives() <==> !Fatal(course.Warmup())) && process.output == Heard(course.Warmup())
      ensures ok ==> active == t && socketDir >= 0 && process.pid >= 0
                     && agentCapable == t.value.agent && (httpPort > 0 <==> t.value.httpGuestPort > 0)
    {
      hide KeepsTail;
      Shutdown(patience);
      if t.None? || !course.resolved {
        return false;
      }
      ok := Prepare(t.value);
      if !ok {
        return;
      }
      ok := Launch(t.value, course, patience);
      if !ok {
        return;
      }
      var settled := Settle(course.first, course.beats);
      if !settled {
        Shutdown(patience);
        return false;
      }
      active := t;
    }

    method HttpPort() returns (port: int)
      requires Valid()
      modifies process`pid, os`children, os`alive, os`signals
      ensures Valid() && port == (if old(Lives()) then httpPort else 0) && (Lives() <==> old(Lives()))
    {
      var alive := process.Running();
      port := if alive then httpPort else 0;
    }

    method AgentAvailable() returns (available: bool)
      requires Valid()
      modifies process`pid, os`children, os`alive, os`signals
      ensures Valid() && (available <==> agentCapable && old(Lives())) && (available ==> Lives())
    {
      var alive := process.Running();
      available := agentCapable && alive;
    }

    /** Connects the agent link on first use; without an answer to the first ping it closes again. */
    method EnsureAgent(connected: bool, answered: bool) returns (ok: bool)
      requires Valid()
      modifies this`agent, process`pid, os`children, os`alive, os`signals
      ensures Valid() && (ok <==> agentCapable && old(Lives()) && (old(agent) || (connected && answered)))
      ensures ok ==> agent && Lives()
    {
      var available := AgentAvailable();
      if !available {
        return false;
      }
      if agent {
        return true;
      }
      agent := connected && answered;
      ok := agent;
    }

    /** A screen capture of a living child that dumps one that decodes; it leaves no dump behind. */
    method SyncFramebuffer(dumped: bool, decoded: bool) returns (ok: bool)
      requires Valid()
      modifies process`pid, os`children, os`alive, os`signals, os`dirs
      ensures Valid() && (ok <==> socketDir >= 0 && old(Lives()) && dumped && decoded)
      ensures ok ==> socketDir in os.dirs && "screen.ppm" !in os.dirs[socketDir]
    {
      if socketDir < 0 {
        return false;
      }
      var alive := process.Running();
      if !alive || !dumped {
        return false;
      }
      os.Create(socketDir);
      os.Unlink(socketDir, "screen.ppm");
      ok := decoded;
    }

    /** One operation, or the child ending by itself. */
    method Do(op: Op)
      requires Valid()
      modifies this, process, os
      ensures Valid()
    {
      hide KeepsTail;
      match op {
        case Boot(t, course, patience) => var _ := Boot(t, course, patience);
        case Shutdown(patience) => Shutdown(patience);
        case Tick(got) => process.Pump(got);
        case Write(data, sends) => var _ := process.SerialWrite(data, sends);
        case Exits => os.Exit(process.pid);
        case QueryPort => var _ := HttpPort();
        case QueryAgent => var _ := AgentAvailable();
        case UseAgent(connected, answered) => var _ := EnsureAgent(connected, answered);
        case Capture(dumped, decoded) => var _ := SyncFramebuffer(dumped, decoded);
      }
    }

    /** Whatever is asked, in whatever order and however it fails: one child and one directory at most, no pipe
        beyond that child's two, and a capture that is a bounded tail of what the child said. */
    method Run(ops: seq<Op>)
      requires Valid()
      modifies this, process, os
      ensures Valid() && |os.children| <= 1 && |os.dirs| <= 1 && |os.open| <= 2
      ensures KeepsTail(process.captured, process.output)
    {
      hide KeepsTail;
      var i := 0;
      while i < |ops|
        invariant 0 <= i <= |ops| && Valid()
      {
        Do(ops[i]);
        i := i + 1;
      }
      assert |os.dirs.Keys| == |os.dirs|;
    }
  }

  // A child that ends in the warm-up.

  const QUIET := Beat(false, false, [])
  const DYING := Course(true, [Attempt(true, false, false)], false, true, QUIET, [QUIET.(dies := true)])

  lemma DyingCourse()
    ensures DYING.Succeeds() && Fatal(DYING.Warmup())
  {
    BeatByBeat(QUIET, DYING.beats);
    BeatByBeat(QUIET.(dies := true), []);
    NoBeats();
    assert DYING.beats == [QUIET.(dies := true)] + [];
  }

  /** The boot reports success, and there is no child and no port. */
  method BootMissesTheEnd(backend: QemuBackend, t: Target, patience: nat) returns (ok: bool, port: int)
    requires backend.Valid() && backend.os.flawless && t.httpGuestPort > 0
    modifies backend, backend.process, backend.os
    ensures backend.Valid() && ok && !backend.Lives() && backend.httpPort > 0 && port == 0
  {
    hide KeepsTail, Fatal, Heard;
    DyingCourse();
    ok := backend.Boot(Some(t), DYING, patience);
    port := backend.HttpPort();
  }
}
