/** Newline framing over a byte stream cut into arbitrary chunks.

    A peer emits lines; a client receives some prefix of their bytes, keeps what it has not consumed in
    a buffer, and takes one line at a time. However the bytes were cut, the lines taken are the lines
    emitted, in order.
 */
module LineFraming {

  predicate Plain(line: string) { '\n' !in line }

  function Join(lines: seq<string>): string {
    if lines == [] then "" else lines[0] + "\n" + Join(lines[1..])
  }

  ghost predicate AllPlain(lines: seq<string>) {
    forall i :: 0 <= i < |lines| ==> Plain(lines[i])
  }

  /** Position of the first newline from i on, or -1. */
  function Newline(buf: string, i: nat): (r: int)
    requires i <= |buf|
    ensures r == -1 || (i <= r < |buf| && buf[r] == '\n')
    ensures forall k :: i <= k < (if r == -1 then |buf| else r) ==> buf[k] != '\n'
    decreases |buf| - i
  {
    if i == |buf| then -1 else if buf[i] == '\n' then i else Newline(buf, i + 1)
  }

  lemma {:induction false} JoinAppend(a: seq<string>, b: seq<string>)
    ensures Join(a + b) == Join(a) + Join(b)
  {
    if a == [] {
      assert a + b == b;
    } else {
      JoinAppend(a[1..], b);
      assert (a + b)[0] == a[0] && (a + b)[1..] == a[1..] + b;
    }
  }

  lemma JoinOne(line: string)
    ensures Join([line]) == line + "\n"
  {
    assert Join([line]) == line + "\n" + Join([]);
  }

  lemma JoinSnoc(lines: seq<string>, k: nat)
    requires k < |lines|
    ensures Join(lines[..k + 1]) == Join(lines[..k]) + lines[k] + "\n"
  {
    assert lines[..k + 1] == lines[..k] + [lines[k]];
    JoinAppend(lines[..k], [lines[k]]);
    JoinOne(lines[k]);
  }

  /** Two texts that agree up to a newline agree on the line before it. */
  lemma FirstLineAgrees(a: string, x: string, b: string, y: string)
    requires Plain(a) && Plain(b)
    requires a + "\n" + x <= b + "\n" + y
    ensures a == b && x <= y
  {
    var s, t := a + "\n" + x, b + "\n" + y;
    assert s[|a|] == '\n' && t[|b|] == '\n';
    assert forall i :: 0 <= i < |a| ==> s[i] == a[i];
    assert forall i :: 0 <= i < |b| ==> t[i] == b[i];
    assert |a| == |b|;
    assert a == s[..|a|] == t[..|a|] == b;
    assert x == s[|a| + 1..] && y == t[|a| + 1..];
  }

  /** The lines a client has taken are the first lines emitted, and its buffer starts the next. */
  lemma {:induction false} TakenAreEmitted(taken: seq<string>, buf: string, emitted: seq<string>)
    requires AllPlain(taken) && AllPlain(emitted)
    requires Join(taken) + buf <= Join(emitted)
    ensures taken <= emitted && buf <= Join(emitted[|taken|..])
  {
    if taken == [] {
      assert Join(taken) + buf == buf;
    } else {
      assert emitted != [];
      assert Join(taken) + buf == taken[0] + "\n" + (Join(taken[1..]) + buf);
      FirstLineAgrees(taken[0], Join(taken[1..]) + buf, emitted[0], Join(emitted[1..]));
      TakenAreEmitted(taken[1..], buf, emitted[1..]);
      assert taken == [taken[0]] + taken[1..] && emitted == [emitted[0]] + emitted[1..];
      assert emitted[|taken|..] == emitted[1..][|taken[1..]|..];
    }
  }

  // ---- What a run of calls delivers ----

  /** What one send or receive came to: bytes moved, a call to repeat, or a failure, a timeout or a closed peer. */
  datatype Wait = Moved(n: nat) | Again | Failed

  /** The bytes a script of calls can move before the first that ends the wait. A client without retries gives
      up where one with them repeats the call. */
  function Total(script: seq<Wait>, retries: bool): nat {
    if script == [] then 0
    else
      match script[0]
      case Moved(n) => if n == 0 then 0 else n + Total(script[1..], retries)
      case Again => if retries then Total(script[1..], retries) else 0
      case Failed => 0
  }

  function Min(a: nat, b: nat): nat { if a < b then a else b }

  /** How much of a text a client that holds its first `have` bytes gets to see. */
  function Reach(text: string, have: nat, script: seq<Wait>, retries: bool): nat {
    Min(|text|, have + Total(script, retries))
  }

  /** Receiving what a call moved leaves the reach where it was. */
  lemma ReachKept(text: string, have: nat, script: seq<Wait>, retries: bool)
    requires have < |text| && script != [] && script[0].Moved? && script[0].n > 0
    ensures Reach(text, have + Min(script[0].n, |text| - have), script[1..], retries) == Reach(text, have, script, retries)
  {
  }

  /** The first newline within the first n bytes of some lines ends the first of them. */
  lemma FirstLineWithin(lines: seq<string>, n: nat)
    requires AllPlain(lines) && n <= |Join(lines)|
    ensures Newline(Join(lines)[..n], 0) == if lines != [] && |lines[0]| < n then |lines[0]| else -1
    ensures lines != [] && |lines[0]| < n ==> Join(lines)[..n][..|lines[0]|] == lines[0]
    ensures lines != [] && |lines[0]| < n ==> Join(lines)[..n][|lines[0]| + 1..] == Join(lines[1..])[..n - |lines[0]| - 1]
  {
    hide Newline;
    if lines != [] {
      var text, line := Join(lines), lines[0];
      assert forall i :: 0 <= i < |line| ==> text[i] == line[i];
      assert text[|line|] == '\n';
      assert text[|line| + 1..] == Join(lines[1..]);
    }
  }

  /** A reply that ends within the reach is longer ahead by the line in front of it. */
  lemma ReachBehind(lines: seq<string>, have: nat, script: seq<Wait>, retries: bool)
    requires lines != [] && |lines[0]| < have <= |Join(lines)|
    ensures Reach(Join(lines[1..]), have - |lines[0]| - 1, script, retries) ==
            Reach(Join(lines), have, script, retries) - |lines[0]| - 1
  {
  }
}
